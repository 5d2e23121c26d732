/** The button-driven calculator of lab3/9/my_calc_gtk.c, on integers. */
module Calculator {
  import opened Options
  import opened Text

  datatype Op = Plus | Minus | Times | Divide

  datatype Button = Digit(d: char) | Operator(op: Op) | Clear | Equals

  /** The text in the entry, and `has_operator`. */
  datatype Calc = Calc(display: string, hasOperator: bool)

  const START := Calc("0", false)

  function Sign(op: Op): char {
    match op case Plus => '+' case Minus => '-' case Times => '*' case Divide => '/'
  }

  datatype Parsed = Parsed(n1: int, op: char, n2: int)

  /** sscanf with "%lf %c %lf", when it fills in all three. */
  function Parse(text: string): Option<Parsed> {
    match ScanNumber(text)
    case NoNumber => None
    case Number(n1, length) => ParseTail(n1, text[length..])
  }

  function ParseTail(n1: int, text: string): Option<Parsed> {
    var rest := text[SkipBlanks(text)..];
    if rest == "" then None
    else match ScanNumber(rest[1..])
      case NoNumber => None
      case Number(n2, _) => Some(Parsed(n1, rest[0], n2))
  }

  function Result(p: Parsed): int {
    if p.op == '+' then p.n1 + p.n2
    else if p.op == '-' then p.n1 - p.n2
    else if p.op == '*' then p.n1 * p.n2
    else if p.op == '/' && p.n2 != 0 then p.n1 / p.n2
    else 0
  }

  /** The operands are integers a double holds exactly, a quotient is a whole number, and the result
      fits an int. */
  predicate InRange(p: Parsed) {
    && -0x20_0000_0000_0000 <= p.n1 <= 0x20_0000_0000_0000
    && -0x20_0000_0000_0000 <= p.n2 <= 0x20_0000_0000_0000
    && (p.op == '/' && p.n2 != 0 ==> p.n1 % p.n2 == 0)
    && -0x8000_0000 <= Result(p) < 0x8000_0000
  }

  predicate Possible(c: Calc, b: Button) {
    match b
    case Digit(d) => IsDigit(d)
    case Equals => Parse(c.display).Some? ==> InRange(Parse(c.display).value)
    case _ => true
  }

  function Press(c: Calc, b: Button): Calc {
    match b
    case Digit(d) => c.(display := if c.display == "0" then [d] else c.display + [d])
    case Operator(op) => if c.hasOperator then c else Calc(c.display + [' ', Sign(op), ' '], true)
    case Clear => START
    case Equals =>
      match Parse(c.display)
      case None => c
      case Some(p) => Calc(Show(Result(p)), false)
  }

  class Window {
    var display: string
    var hasOperator: bool

    function View(): Calc
      reads this
    {
      Calc(display, hasOperator)
    }

    constructor ()
      ensures View() == START
    {
      display, hasOperator := "0", false;
    }

    method OnNumberClicked(numStr: char)
      requires IsDigit(numStr)
      modifies this
      ensures View() == Press(old(View()), Digit(numStr))
      ensures old(Inv(View())) ==> Inv(View())
    {
      if Inv(View()) { PressKeepsInv(View(), Digit(numStr)); }
      if display == "0" {
        display := [numStr];
      } else {
        display := display + [numStr];
      }
    }

    method OnOperatorClicked(op: Op)
      modifies this
      ensures View() == Press(old(View()), Operator(op))
      ensures old(Inv(View())) ==> Inv(View())
    {
      if Inv(View()) { PressKeepsInv(View(), Operator(op)); }
      if hasOperator { return; }
      display := display + [' ', Sign(op), ' '];
      hasOperator := true;
    }

    method OnClearClicked()
      modifies this
      ensures View() == Press(old(View()), Clear)
      ensures old(Inv(View())) ==> Inv(View())
    {
      if Inv(View()) { PressKeepsInv(View(), Clear); }
      display, hasOperator := "0", false;
    }

    method OnEqualsClicked()
      requires Possible(View(), Equals)
      modifies this
      ensures View() == Press(old(View()), Equals)
      ensures old(Inv(View())) ==> Inv(View())
    {
      if Inv(View()) { PressKeepsInv(View(), Equals); }
      var parsed := Parse(display);
      if parsed == None { return; }
      var p, result := parsed.value, 0;
      if p.op == '+' {
        result := p.n1 + p.n2;
      } else if p.op == '-' {
        result := p.n1 - p.n2;
      } else if p.op == '*' {
        result := p.n1 * p.n2;
      } else if p.op == '/' {
        if p.n2 != 0 { result := p.n1 / p.n2; }
      }
      assert result == Result(p);
      display := Show(result);
      hasOperator := false;
    }
  }

  // ---------- what the display looks like ----------

  /** Digits, perhaps with a minus sign in front. */
  predicate Numeral(t: string) {
    t != "" && (Digits(t) || (t[0] == '-' && |t| > 1 && Digits(t[1..])))
  }

  function Value(t: string): int
    requires Numeral(t)
  {
    if Digits(t) then ReadNat(t) else var n: int := ReadNat(t[1..]); -n
  }

  function Shape(num: string, op: Op, ds: string): string {
    num + Tail(op, ds)
  }

  function Tail(op: Op, ds: string): string {
    " " + ([Sign(op)] + (" " + ds))
  }

  predicate IsShape(t: string, num: string, op: Op, ds: string) {
    Numeral(num) && Digits(ds) && t == Shape(num, op, ds)
  }

  ghost predicate Inv(c: Calc) {
    if c.hasOperator then exists num, op, ds :: IsShape(c.display, num, op, ds) else Numeral(c.display)
  }

  lemma ScanNumeral(num: string, rest: string)
    requires Numeral(num) && (rest != "" ==> !IsDigit(rest[0]))
    ensures ScanNumber(num + rest) == Number(Value(num), |num|)
  {
    if Digits(num) {
      ScanDigits(false, num, rest);
    } else {
      ScanDigits(true, num[1..], rest);
      assert num == "-" + num[1..];
    }
  }

  lemma ParseNumeral(num: string)
    requires Numeral(num)
    ensures Parse(num) == None
  {
  }

  /** The display is parsed into just the two numbers and the operator it was built from. */
  lemma ParseShape(num: string, op: Op, ds: string)
    requires Numeral(num) && Digits(ds)
    ensures Parse(Shape(num, op, ds)) ==
            if ds == "" then None else Some(Parsed(Value(num), Sign(op), ReadNat(ds)))
  {
    ScanNumeral(num, Tail(op, ds));
    assert Shape(num, op, ds)[|num|..] == Tail(op, ds);
    ParseOperand(Value(num), op, ds);
  }

  lemma ParseOperand(n1: int, op: Op, ds: string)
    requires Digits(ds)
    ensures ParseTail(n1, Tail(op, ds)) == if ds == "" then None else Some(Parsed(n1, Sign(op), ReadNat(ds)))
  {
    var rest := [Sign(op)] + (" " + ds);
    SkipOneBlank(rest);
    assert Tail(op, ds)[1..] == rest && rest[1..] == " " + ds;
    ScanPadded(ds);
  }

  lemma SkipOneBlank(rest: string)
    requires rest != "" ==> !Blank(CSpace, rest[0])
    ensures SkipBlanks(" " + rest) == 1
  {
  }

  lemma ScanPadded(ds: string)
    requires Digits(ds)
    ensures ScanNumber(" " + ds) == if ds == "" then NoNumber else Number(ReadNat(ds), |ds| + 1)
  {
    var s := " " + ds;
    assert s[1..] == ds + "";
    assert ds != "" ==> ds[0] in ds;
    SkipOneBlank(ds);
    if ds != "" {
      UnsignedAt(s, 1, false, ds, "");
    }
  }

  lemma ShowIsNumeral(n: int)
    ensures Numeral(Show(n)) && Value(Show(n)) == n
  {
    var m: nat := if n < 0 then -n else n;
    ReadShowNat(m);
    if n < 0 {
      assert Show(n)[1..] == ShowNat(m);
      assert '-' in Show(n);
    }
  }

  /** Over every sequence of buttons the display is a numeral, or a numeral, an operator and perhaps
      digits, as has_operator says. */
  lemma PressKeepsInv(c: Calc, b: Button)
    requires Inv(c) && Possible(c, b)
    ensures Inv(Press(c, b))
  {
    var c' := Press(c, b);
    if c.hasOperator {
      var num, op, ds :| IsShape(c.display, num, op, ds);
      match b
      case Digit(d) =>
        assert c.display[|num|] == ' ';
        assert Tail(op, ds) + [d] == Tail(op, ds + [d]);
        assert IsShape(c'.display, num, op, ds + [d]);
      case Operator(_) => assert c' == c;
      case Clear =>
      case Equals =>
        ParseShape(num, op, ds);
        if ds != "" {
          ShowIsNumeral(Result(Parse(c.display).value));
        }
    } else {
      match b
      case Digit(d) => AppendDigit(c.display, d);
      case Operator(op) =>
        assert Tail(op, "") == [' ', Sign(op), ' '];
        assert IsShape(c'.display, c.display, op, "");
      case Clear =>
      case Equals => ParseNumeral(c.display);
    }
  }

  lemma AppendDigit(t: string, d: char)
    requires Numeral(t) && IsDigit(d)
    ensures Numeral(t + [d]) && Numeral([d])
  {
  }

  /** C shows a lone zero, and any operator may follow. */
  lemma ClearShowsZero(c: Calc)
    ensures Press(c, Clear).display == "0" && !Press(c, Clear).hasOperator
  {
  }

  /** A second operator is ignored. */
  lemma SecondOperatorIgnored(num: string, op: Op, ds: string, other: Op)
    ensures Press(Calc(Shape(num, op, ds), true), Operator(other)) == Calc(Shape(num, op, ds), true)
  {
  }

  lemma Divides(x: int, y: int)
    requires y != 0 && x % y == 0
    ensures (x / y) * y == x
  {
  }

  /** v is what the operator makes of x and y; a quotient by zero is 0. */
  predicate Arithmetic(op: Op, x: int, y: int, v: int) {
    match op
    case Plus => v == x + y
    case Minus => v == x - y
    case Times => v == x * y
    case Divide => if y == 0 then v == 0 else v * y == x
  }

  lemma ResultArithmetic(op: Op, x: int, y: int)
    requires InRange(Parsed(x, Sign(op), y))
    ensures Arithmetic(op, x, y, Result(Parsed(x, Sign(op), y)))
  {
    if op == Divide && y != 0 {
      Divides(x, y);
    }
  }

  /** What = shows for a complete expression. */
  lemma EqualsShowsArithmetic(num: string, op: Op, ds: string)
    requires Numeral(num) && Digits(ds) && ds != ""
    requires InRange(Parsed(Value(num), Sign(op), ReadNat(ds)))
    ensures var c' := Press(Calc(Shape(num, op, ds), true), Equals);
            Numeral(c'.display) && !c'.hasOperator && Arithmetic(op, Value(num), ReadNat(ds), Value(c'.display))
  {
    ParseShape(num, op, ds);
    ResultArithmetic(op, Value(num), ReadNat(ds));
    ShowIsNumeral(Result(Parsed(Value(num), Sign(op), ReadNat(ds))));
  }

  /** An expression that is not complete stays as it is. */
  lemma EqualsWaits(num: string, op: Op)
    requires Numeral(num)
    ensures Press(Calc(num, false), Equals) == Calc(num, false)
    ensures Press(Calc(Shape(num, op, ""), true), Equals) == Calc(Shape(num, op, ""), true)
  {
    ParseNumeral(num);
    ParseShape(num, op, "");
  }

  /** The signs on the buttons. */
  lemma SignsShown(t: string)
    requires t != ""
    ensures Press(Calc(t, false), Operator(Plus)).display == t + " + "
    ensures Press(Calc(t, false), Operator(Minus)).display == t + " - "
    ensures Press(Calc(t, false), Operator(Times)).display == t + " * "
    ensures Press(Calc(t, false), Operator(Divide)).display == t + " / "
  {
  }

  // ---------- runs ----------

  predicate IsRun(c: Calc, bs: seq<Button>)
    decreases |bs|
  {
    bs == [] || (Possible(c, bs[0]) && IsRun(Press(c, bs[0]), bs[1..]))
  }

  function After(c: Calc, bs: seq<Button>): Calc
    decreases |bs|
  {
    if bs == [] then c else After(Press(c, bs[0]), bs[1..])
  }

  lemma {:induction false} RunKeepsInv(c: Calc, bs: seq<Button>)
    requires Inv(c) && IsRun(c, bs)
    ensures Inv(After(c, bs))
    decreases |bs|
  {
    if bs != [] {
      PressKeepsInv(c, bs[0]);
      RunKeepsInv(Press(c, bs[0]), bs[1..]);
    }
  }

  /** Over every sequence of buttons the display has the form that has_operator announces. */
  lemma DisplayForm(bs: seq<Button>)
    requires IsRun(START, bs)
    ensures var c := After(START, bs);
            if c.hasOperator then exists num, op, ds :: IsShape(c.display, num, op, ds) else Numeral(c.display)
  {
    RunKeepsInv(START, bs);
  }

  lemma {:induction false} AfterConcat(c: Calc, xs: seq<Button>, ys: seq<Button>)
    ensures After(c, xs + ys) == After(After(c, xs), ys)
    ensures IsRun(c, xs + ys) <==> IsRun(c, xs) && IsRun(After(c, xs), ys)
    decreases |xs|
  {
    if xs == [] {
      assert xs + ys == ys;
    } else {
      assert (xs + ys)[1..] == xs[1..] + ys;
      AfterConcat(Press(c, xs[0]), xs[1..], ys);
    }
  }

  function Keys(ds: string): seq<Button> {
    seq(|ds|, k requires 0 <= k < |ds| => Digit(ds[k]))
  }

  /** Digits typed on anything but a lone zero are appended. */
  lemma {:induction false} TypeDigits(c: Calc, ds: string)
    requires Digits(ds) && c.display != "" && c.display != "0"
    ensures IsRun(c, Keys(ds)) && After(c, Keys(ds)) == c.(display := c.display + ds)
    decreases |ds|
  {
    if ds == "" {
      assert c.display + ds == c.display;
    } else {
      assert ds[0] in ds;
      assert Keys(ds)[1..] == Keys(ds[1..]);
      assert c.display + [ds[0]] + ds[1..] == c.display + ds;
      TypeDigits(Press(c, Digit(ds[0])), ds[1..]);
    }
  }

  /** A first number typed on a cleared display. */
  lemma TypeFirst(n: nat)
    ensures IsRun(START, Keys(ShowNat(n))) && After(START, Keys(ShowNat(n))) == Calc(Show(n), false)
  {
    var ds := ShowNat(n);
    ShowLeads(n);
    assert ds[0] in ds;
    assert Keys(ds)[1..] == Keys(ds[1..]);
    var c := Press(START, Digit(ds[0]));
    if n == 0 {
      assert Keys(ds[1..]) == [];
    } else {
      TypeDigits(c, ds[1..]);
      assert [ds[0]] + ds[1..] == ds;
    }
  }

  datatype Term = Term(op: Op, n: nat)

  function Combine(x: int, t: Term): int {
    match t.op case Plus => x + t.n case Minus => x - t.n case Times => x * t.n
    case Divide => if t.n == 0 then 0 else x / t.n
  }

  function TermButtons(t: Term): seq<Button> {
    [Operator(t.op)] + (Keys(ShowNat(t.n)) + [Equals])
  }

  /** op n = on a display that shows x. */
  lemma OneTerm(x: int, t: Term)
    requires InRange(Parsed(x, Sign(t.op), t.n))
    ensures IsRun(Calc(Show(x), false), TermButtons(t))
    ensures After(Calc(Show(x), false), TermButtons(t)) == Calc(Show(Combine(x, t)), false)
  {
    var c, ds := Calc(Show(x), false), ShowNat(t.n);
    var c1 := Press(c, Operator(t.op));
    var c2 := Calc(Shape(Show(x), t.op, ds), true);
    TypeOperand(x, t.op, ds);
    AfterConcat(c1, Keys(ds), [Equals]);
    EqualsShows(x, t);
    assert TermButtons(t)[1..] == Keys(ds) + [Equals];
    assert After(Press(c2, Equals), []) == Press(c2, Equals) && [Equals][1..] == [];
  }

  lemma TypeOperand(x: int, op: Op, ds: string)
    requires Digits(ds)
    ensures var c1 := Press(Calc(Show(x), false), Operator(op));
            IsRun(c1, Keys(ds)) && After(c1, Keys(ds)) == Calc(Shape(Show(x), op, ds), true)
  {
    var c1 := Press(Calc(Show(x), false), Operator(op));
    assert |c1.display| > |"0"|;
    TypeDigits(c1, ds);
    assert [' ', Sign(op), ' '] + ds == Tail(op, ds);
  }

  lemma EqualsShows(x: int, t: Term)
    requires InRange(Parsed(x, Sign(t.op), t.n))
    ensures var c := Calc(Shape(Show(x), t.op, ShowNat(t.n)), true);
            Possible(c, Equals) && Press(c, Equals) == Calc(Show(Combine(x, t)), false)
  {
    ShowIsNumeral(x);
    ReadShowNat(t.n);
    ParseShape(Show(x), t.op, ShowNat(t.n));
    ResultIsCombine(x, t);
  }

  lemma ResultIsCombine(x: int, t: Term)
    ensures Result(Parsed(x, Sign(t.op), t.n)) == Combine(x, t)
  {
  }

  function Buttons(ts: seq<Term>): seq<Button> {
    if ts == [] then [] else TermButtons(ts[0]) + Buttons(ts[1..])
  }

  function Fold(x: int, ts: seq<Term>): int
    decreases |ts|
  {
    if ts == [] then x else Fold(Combine(x, ts[0]), ts[1..])
  }

  predicate StaysInRange(x: int, ts: seq<Term>)
    decreases |ts|
  {
    ts != [] ==> InRange(Parsed(x, Sign(ts[0].op), ts[0].n)) && StaysInRange(Combine(x, ts[0]), ts[1..])
  }

  lemma {:induction false} ShowsFold(x: int, ts: seq<Term>)
    requires StaysInRange(x, ts)
    ensures IsRun(Calc(Show(x), false), Buttons(ts))
    ensures After(Calc(Show(x), false), Buttons(ts)) == Calc(Show(Fold(x, ts)), false)
    decreases |ts|
  {
    if ts != [] {
      OneTerm(x, ts[0]);
      ShowsFold(Combine(x, ts[0]), ts[1..]);
      AfterConcat(Calc(Show(x), false), TermButtons(ts[0]), Buttons(ts[1..]));
    }
  }

  /** Typing n0 op1 n1 = op2 n2 = ... shows the decimal form of the left-to-right value. */
  lemma ChainShowsFold(n0: nat, ts: seq<Term>)
    requires StaysInRange(n0, ts)
    ensures IsRun(START, Keys(ShowNat(n0)) + Buttons(ts))
    ensures After(START, Keys(ShowNat(n0)) + Buttons(ts)) == Calc(Show(Fold(n0, ts)), false)
  {
    TypeFirst(n0);
    ShowsFold(n0, ts);
    AfterConcat(START, Keys(ShowNat(n0)), Buttons(ts));
  }
}
