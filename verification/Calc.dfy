/** The two-operand evaluator over int64, and its round trip with decimal printing. */
module Calc {
  import opened Int64
  import opened Option
  import opened Sequences
  import opened Decimal

  datatype Error = DivideByZero | Syntax(pos: int, what: What)
  datatype What = EmptyExpression | MissingOperator | BadLeftOperand | BadRightOperand | UnknownOperator
  datatype Result = Ok(value: int64) | Err(error: Error)

  // ---- strings and strconv ----

  // Unicode's White_Space.
  predicate IsSpace(c: char) {
    var n := c as int;
    || 9 <= n <= 13 || n == 0x20 || n == 0x85 || n == 0xA0 || n == 0x1680 || 0x2000 <= n <= 0x200A
    || n == 0x2028 || n == 0x2029 || n == 0x202F || n == 0x205F || n == 0x3000
  }

  function TrimLeft(s: string): string {
    if s != "" && IsSpace(s[0]) then TrimLeft(s[1..]) else s
  }

  function TrimRight(s: string): string {
    if s != "" && IsSpace(s[|s| - 1]) then TrimRight(s[..|s| - 1]) else s
  }

  function TrimSpace(s: string): string { TrimRight(TrimLeft(s)) }

  predicate IsOp(c: char) { c == '+' || c == '-' || c == '*' || c == '/' }

  // strings.IndexAny(s, "+-*/")
  function IndexOp(s: string): (i: int)
    ensures -1 <= i < |s|
    ensures i >= 0 ==> IsOp(s[i])
  {
    if s == "" then -1
    else if IsOp(s[0]) then 0
    else
      var i := IndexOp(s[1..]);
      if i < 0 then -1 else i + 1
  }

  predicate IsDigit(c: char) { '0' <= c <= '9' }

  function Digits(s: string): Option<nat> {
    if s == "" || !IsDigit(s[|s| - 1]) then None
    else
      var d := s[|s| - 1] as int - '0' as int;
      if |s| == 1 then Some(d)
      else match Digits(s[..|s| - 1])
        case None => None
        case Some(n) => Some(10 * n + d)
  }

  // strconv.Atoi: an optional sign, then decimal digits, within int64.
  function Atoi(s: string): Option<int64> {
    if s == "" then None
    else
      match Digits(if s[0] == '-' || s[0] == '+' then s[1..] else s)
      case None => None
      case Some(n) =>
        var v: int := if s[0] == '-' then -(n as int) else n;
        if Fits(v) then Some(v) else None
  }

  // ---- The evaluator ----

  function Add(a: int64, b: int64): int64 { Wrap(a + b) }

  function Abs(a: int): nat { if a < 0 then -a else a }

  // Go truncates toward zero; the one overflow, MIN / -1, wraps.
  function Quotient(a: int, b: int): int
    requires b != 0
  {
    if (a < 0) == (b < 0) then Abs(a) / Abs(b) else -(Abs(a) / Abs(b))
  }

  function Divide(a: int64, b: int64): Result {
    if b == 0 then Err(DivideByZero) else Ok(Wrap(Quotient(a, b)))
  }

  // The result before it is wrapped.
  function Exact(op: char, a: int, b: int): int
    requires op == '/' ==> b != 0
  {
    match op
    case '+' => a + b
    case '-' => a - b
    case '*' => a * b
    case _ => if op == '/' then Quotient(a, b) else 0
  }

  function Operate(op: char, a: int64, b: int64): (r: Result)
    requires IsOp(op)
    ensures r.Err? ==> r == Err(DivideByZero)
    ensures r.Err? <==> op == '/' && b == 0
    ensures r.Ok? ==> Congruent(r.value, Exact(op, a, b))
    ensures r.Ok? && Fits(Exact(op, a, b)) ==> r.value == Exact(op, a, b)
    ensures op == '+' ==> Congruent(r.value, a + b)
    ensures op == '-' ==> Congruent(r.value, a - b)
    ensures op == '*' ==> Congruent(r.value, a * b)
  {
    WrapCongruent(if op == '/' && b == 0 then 0 else Exact(op, a, b));
    match op
    case '+' => Ok(Add(a, b))
    case '-' => Ok(Wrap(a - b))
    case '*' => Ok(Wrap(a * b))
    case _ => Divide(a, b)
  }

  function EvalTrimmed(expr: string): Result {
    if expr == "" then Err(Syntax(0, EmptyExpression))
    else
      var found := IndexOp(expr[1..]);  // the first character may be a sign
      if found < 0 then Err(Syntax(0, MissingOperator))
      else
        var opIdx := found + 1;
        match Atoi(TrimSpace(expr[..opIdx]))
        case None => Err(Syntax(0, BadLeftOperand))
        case Some(left) =>
          match Atoi(TrimSpace(expr[opIdx + 1..]))
          case None => Err(Syntax(opIdx + 1, BadRightOperand))
          case Some(right) =>
            if IsOp(expr[opIdx]) then Operate(expr[opIdx], left, right) else Err(Syntax(opIdx, UnknownOperator))
  }

  function Eval(input: string): Result { EvalTrimmed(TrimSpace(input)) }

  // ---- Printing ----

  predicate AllDigits(s: string) { forall i :: 0 <= i < |s| ==> IsDigit(s[i]) }
  predicate AllSpace(s: string) { forall i :: 0 <= i < |s| ==> IsSpace(s[i]) }

  lemma {:induction false} PrintNatReads(n: nat)
    ensures AllDigits(PrintNat(n)) && |PrintNat(n)| >= 1 && Digits(PrintNat(n)) == Some(n)
  {
    var s := PrintNat(n);
    if n >= 10 {
      PrintNatReads(n / 10);
      assert s[..|s| - 1] == PrintNat(n / 10);
    }
  }

  // p spells a: an optional sign and digits, nothing else, read by Atoi as a.
  predicate Spells(p: string, a: int64) {
    && p != "" && (IsDigit(p[0]) || p[0] == '-' || p[0] == '+') && AllDigits(p[1..]) && IsDigit(p[|p| - 1])
    && Atoi(p) == Some(a)
  }

  // Printing spells every int64, the minimum included.
  lemma PrintSpells(a: int64)
    ensures Spells(Print(a), a)
  {
    PrintNatReads(Abs(a));
    if a < 0 {
      assert Print(a)[1..] == PrintNat(-(a as int));
    }
  }

  lemma {:induction false} TrimLeftSkips(s: string, m: string)
    requires AllSpace(s) && (m == "" || !IsSpace(m[0]))
    ensures TrimLeft(s + m) == m
  {
    if s == "" {
      assert s + m == m;
    } else {
      assert (s + m)[1..] == s[1..] + m;
      TrimLeftSkips(s[1..], m);
    }
  }

  lemma {:induction false} TrimRightSkips(m: string, s: string)
    requires AllSpace(s) && (m == "" || !IsSpace(m[|m| - 1]))
    ensures TrimRight(m + s) == m
  {
    if s == "" {
      assert m + s == m;
    } else {
      assert (m + s)[..|m + s| - 1] == m + s[..|s| - 1];
      TrimRightSkips(m, s[..|s| - 1]);
    }
  }

  lemma TrimPeels(s: string, m: string, t: string)
    requires AllSpace(s) && AllSpace(t) && m != "" && !IsSpace(m[0]) && !IsSpace(m[|m| - 1])
    ensures TrimSpace(s + m + t) == m
  {
    assert s + m + t == s + (m + t);
    TrimLeftSkips(s, m + t);
    TrimRightSkips(m, t);
  }

  lemma {:induction false} IndexOpAt(s: string, i: nat)
    requires i < |s| && IsOp(s[i]) && forall j :: 0 <= j < i ==> !IsOp(s[j])
    ensures IndexOp(s) == i
  {
    if i == 0 {
    } else {
      IndexOpAt(s[1..], i - 1);
    }
  }

  // In a trimmed expression the first operator after the first character is the one between the operands.
  lemma FindsOperator(p: string, s2: string, op: char, right: string)
    requires p != "" && AllDigits(p[1..]) && AllSpace(s2) && IsOp(op)
    ensures IndexOp((p + s2 + [op] + right)[1..]) == |p| + |s2| - 1
  {
    var tail := (p + s2 + [op] + right)[1..];
    var k := |p| + |s2| - 1;
    assert tail[k] == op;
    forall j | 0 <= j < k ensures !IsOp(tail[j]) {
      if j + 1 < |p| {
        assert tail[j] == p[1..][j];
      } else {
        assert tail[j] == s2[j + 1 - |p|];
      }
    }
    IndexOpAt(tail, k);
  }

  lemma TrimOperand(s: string, p: string, t: string, a: int64)
    requires AllSpace(s) && AllSpace(t) && Spells(p, a)
    ensures Atoi(TrimSpace(s + p + t)) == Some(a)
  {
    TrimPeels(s, p, t);
  }

  lemma EvalTrimmedReads(p: string, a: int64, s2: string, op: char, s3: string, q: string, b: int64)
    requires Spells(p, a) && Spells(q, b) && AllSpace(s2) && AllSpace(s3) && IsOp(op)
    ensures EvalTrimmed(p + s2 + [op] + (s3 + q)) == Operate(op, a, b)
  {
    var expr := p + s2 + [op] + (s3 + q);
    FindsOperator(p, s2, op, s3 + q);
    var k := |p| + |s2|;
    assert expr[..k] == "" + p + s2 && expr[k + 1..] == s3 + q + "" && expr[k] == op;
    TrimOperand("", p, s2, a);
    TrimOperand(s3, q, "", b);
  }

  // Eval reads any spelling of two int64 operands, with any white space around them and around the whole.
  lemma EvalReads(s1: string, p: string, a: int64, s2: string, op: char, s3: string, q: string, b: int64, s4: string)
    requires Spells(p, a) && Spells(q, b) && IsOp(op)
    requires AllSpace(s1) && AllSpace(s2) && AllSpace(s3) && AllSpace(s4)
    ensures Eval(s1 + (p + s2 + [op] + (s3 + q)) + s4) == Operate(op, a, b)
  {
    TrimPeels(s1, p + s2 + [op] + (s3 + q), s4);
    EvalTrimmedReads(p, a, s2, op, s3, q, b);
  }

  // Eval undoes printing: decimal operands of either sign, any white space, every operator. The result is the
  // wrapped Go result, or ErrDivideByZero exactly when op is '/' and b is 0 (see Operate).
  lemma EvalUndoesPrinting(s1: string, a: int64, s2: string, op: char, s3: string, b: int64, s4: string)
    requires AllSpace(s1) && AllSpace(s2) && AllSpace(s3) && AllSpace(s4) && IsOp(op)
    ensures Eval(s1 + (Print(a) + s2 + [op] + (s3 + Print(b))) + s4) == Operate(op, a, b)
  {
    PrintSpells(a);
    PrintSpells(b);
    EvalReads(s1, Print(a), a, s2, op, s3, Print(b), b, s4);
  }

  // ---- What Eval accepts ----

  lemma {:induction false} DigitsAreDigits(s: string)
    requires Digits(s).Some?
    ensures s != "" && AllDigits(s)
  {
    if |s| == 1 {
    } else {
      DigitsAreDigits(s[..|s| - 1]);
      assert s == s[..|s| - 1] + [s[|s| - 1]];
    }
  }

  lemma {:induction false} DigitsRead(s: string)
    requires s != "" && AllDigits(s)
    ensures Digits(s).Some?
  {
    if |s| == 1 {
    } else {
      DigitsRead(s[..|s| - 1]);
    }
  }

  predicate Signed(p: string) { p != "" && (p[0] == '-' || p[0] == '+') }

  function Unsigned(p: string): string { if Signed(p) then p[1..] else p }

  // Atoi reads exactly an optional sign and decimal digits whose value is an int64.
  lemma AtoiIff(p: string)
    ensures Atoi(p).Some? <==>
            && Unsigned(p) != "" && AllDigits(Unsigned(p)) && Digits(Unsigned(p)).Some?
            && (var n: int := Digits(Unsigned(p)).value; Fits(if Signed(p) && p[0] == '-' then -n else n))
    ensures Unsigned(p) != "" && AllDigits(Unsigned(p)) ==> Digits(Unsigned(p)).Some?
  {
    if Digits(Unsigned(p)).Some? {
      DigitsAreDigits(Unsigned(p));
    }
    if Unsigned(p) != "" && AllDigits(Unsigned(p)) {
      DigitsRead(Unsigned(p));
    }
  }

  // Everything that Atoi reads is a spelling: there are no others.
  lemma ReadIsSpelled(p: string, a: int64)
    requires Atoi(p) == Some(a)
    ensures Spells(p, a)
  {
    if p[0] == '-' || p[0] == '+' {
      DigitsAreDigits(p[1..]);
    } else {
      DigitsAreDigits(p);
    }
  }

  lemma {:induction false} TrimLeftPeels(s: string) returns (l: string)
    ensures AllSpace(l) && s == l + TrimLeft(s)
    ensures TrimLeft(s) == "" || !IsSpace(TrimLeft(s)[0])
  {
    l := "";
    if s != "" && IsSpace(s[0]) {
      var l' := TrimLeftPeels(s[1..]);
      l := [s[0]] + l';
    }
  }

  lemma {:induction false} TrimRightPeels(s: string) returns (r: string)
    ensures AllSpace(r) && s == TrimRight(s) + r
    ensures TrimRight(s) == "" || !IsSpace(TrimRight(s)[|TrimRight(s)| - 1])
  {
    r := "";
    if s != "" && IsSpace(s[|s| - 1]) {
      var r' := TrimRightPeels(s[..|s| - 1]);
      r := r' + [s[|s| - 1]];
    }
  }

  // TrimSpace takes white space off both ends, and leaves none there.
  lemma TrimSplits(s: string) returns (l: string, r: string)
    ensures AllSpace(l) && AllSpace(r) && s == l + TrimSpace(s) + r
    ensures var m := TrimSpace(s); m == "" || (!IsSpace(m[0]) && !IsSpace(m[|m| - 1]))
  {
    l := TrimLeftPeels(s);
    r := TrimRightPeels(TrimLeft(s));
    var m := TrimSpace(s);
    assert s == l + (m + r);
    if m != "" {
      assert TrimLeft(s)[0] == m[0];
    }
  }

  // A way to read an input: two spelled operands around an operator, with white space between.
  datatype Reading = Reading(s1: string, p: string, a: int64, s2: string, op: char, s3: string, q: string, b: int64, s4: string)

  ghost predicate Reads(input: string, t: Reading) {
    && Spells(t.p, t.a) && Spells(t.q, t.b) && IsOp(t.op)
    && AllSpace(t.s1) && AllSpace(t.s2) && AllSpace(t.s3) && AllSpace(t.s4)
    && input == t.s1 + (t.p + t.s2 + [t.op] + (t.s3 + t.q)) + t.s4
  }

  lemma StartsWithSpace(l: string, expr: string)
    requires l <= expr && expr != "" && AllSpace(l)
    ensures l == "" || IsSpace(expr[0])
  {
  }

  // The left operand of a trimmed expression has no white space before it, the right one none after it.
  lemma LeftOperand(expr: string, left: string) returns (p: string, s2: string, a: int64)
    requires left <= expr && expr != "" && !IsSpace(expr[0]) && Atoi(TrimSpace(left)).Some?
    ensures Spells(p, a) && AllSpace(s2) && left == p + s2 && Atoi(TrimSpace(left)) == Some(a)
  {
    p, a := TrimSpace(left), Atoi(TrimSpace(left)).value;
    ReadIsSpelled(p, a);
    var l: string;
    l, s2 := TrimSplits(left);
    assert l <= expr by {
      assert left == l + (p + s2);
    }
    StartsWithSpace(l, expr);
    assert l + p == p;
  }

  lemma EndsWithSpace(r: string, s: string)
    requires |r| <= |s| && s != "" && AllSpace(r) && s[|s| - |r|..] == r
    ensures r == "" || IsSpace(s[|s| - 1])
  {
  }

  lemma RightOperand(expr: string, right: string) returns (s3: string, q: string, b: int64)
    requires |right| < |expr| && expr[|expr| - |right|..] == right
    requires !IsSpace(expr[|expr| - 1]) && Atoi(TrimSpace(right)).Some?
    ensures Spells(q, b) && AllSpace(s3) && right == s3 + q && Atoi(TrimSpace(right)) == Some(b)
  {
    q, b := TrimSpace(right), Atoi(TrimSpace(right)).value;
    ReadIsSpelled(q, b);
    var r: string;
    s3, r := TrimSplits(right);
    EndsWithSpace(r, right);
    assert right[|right| - 1] == expr[|expr| - 1];
    assert s3 + q + r == s3 + q;
  }

  lemma FindReading(input: string) returns (t: Reading)
    requires !(Eval(input).Err? && Eval(input).error.Syntax?)
    ensures Reads(input, t)
  {
    var s1, s4 := TrimSplits(input);
    var expr := TrimSpace(input);
    var k := IndexOp(expr[1..]) + 1;
    var p, s2, a := LeftOperand(expr, expr[..k]);
    var s3, q, b := RightOperand(expr, expr[k + 1..]);
    SplitAt(expr, k);
    t := Reading(s1, p, a, s2, expr[k], s3, q, b, s4);
  }

  // Eval rejects the syntax of exactly the inputs that have no reading; of the others it gives what any reading says.
  lemma SyntaxErrorIff(input: string)
    ensures Eval(input).Err? && Eval(input).error.Syntax? <==> !exists t :: Reads(input, t)
    ensures forall t :: Reads(input, t) ==> Eval(input) == Operate(t.op, t.a, t.b)
    ensures Eval(input).Err? && Eval(input).error.Syntax? ==> Eval(input).error.what != UnknownOperator
  {
    forall t | Reads(input, t) ensures Eval(input) == Operate(t.op, t.a, t.b) {
      EvalReads(t.s1, t.p, t.a, t.s2, t.op, t.s3, t.q, t.b, t.s4);
    }
    if !(Eval(input).Err? && Eval(input).error.Syntax?) {
      var t := FindReading(input);
    }
  }

  // ---- Which syntax error ----

  // The expression within the white space of an input, and the position of its operator: the first one after the first
  // character, which may be a sign.
  ghost predicate IsBody(input: string, expr: string) {
    && (exists l, r :: AllSpace(l) && AllSpace(r) && input == l + expr + r)
    && expr != "" && !IsSpace(expr[0]) && !IsSpace(expr[|expr| - 1])
  }

  predicate IsOperatorAt(expr: string, k: int) {
    1 <= k < |expr| && IsOp(expr[k]) && forall j :: 1 <= j < k ==> !IsOp(expr[j])
  }

  // An operand, with white space around it or not, that reads as an int64.
  predicate IsOperand(s: string) { Atoi(TrimSpace(s)).Some? }

  lemma {:induction false} IndexOpNone(s: string)
    ensures IndexOp(s) < 0 <==> forall j :: 0 <= j < |s| ==> !IsOp(s[j])
  {
    if s == "" {
    } else {
      IndexOpNone(s[1..]);
    }
  }

  lemma TrimsToNothing(s: string)
    ensures TrimSpace(s) == "" <==> AllSpace(s)
  {
    var l, r := TrimSplits(s);
    if AllSpace(s) {
      TrimLeftSkips(s, "");
      assert s + "" == s;
    }
  }

  // Nothing but white space is an empty expression; every other input has a body.
  lemma EmptyIff(input: string)
    ensures Eval(input) == Err(Syntax(0, EmptyExpression)) <==> AllSpace(input)
    ensures !AllSpace(input) ==> IsBody(input, TrimSpace(input))
  {
    TrimsToNothing(input);
    var l, r := TrimSplits(input);
  }

  lemma {:induction false} FirstOp(s: string)
    ensures forall j :: 0 <= j < IndexOp(s) ==> !IsOp(s[j])
  {
    if s == "" || IsOp(s[0]) {
    } else {
      FirstOp(s[1..]);
    }
  }

  lemma FoundIsOperator(expr: string)
    requires expr != ""
    ensures IndexOp(expr[1..]) >= 0 ==> IsOperatorAt(expr, IndexOp(expr[1..]) + 1)
  {
    FirstOp(expr[1..]);
  }

  // Otherwise the operator is looked for first, then the left operand, then the right one, whose error is the only one
  // that is given a position.
  lemma SyntaxErrorIs(input: string, expr: string)
    requires IsBody(input, expr)
    ensures (forall k :: !IsOperatorAt(expr, k)) ==> Eval(input) == Err(Syntax(0, MissingOperator))
    ensures forall k :: IsOperatorAt(expr, k) ==>
      if !IsOperand(expr[..k]) then Eval(input) == Err(Syntax(0, BadLeftOperand))
      else if !IsOperand(expr[k + 1..]) then Eval(input) == Err(Syntax(k + 1, BadRightOperand))
      else Eval(input) == Operate(expr[k], Atoi(TrimSpace(expr[..k])).value, Atoi(TrimSpace(expr[k + 1..])).value)
  {
    var l, r :| AllSpace(l) && AllSpace(r) && input == l + expr + r;
    TrimPeels(l, expr, r);
    IndexOpNone(expr[1..]);
    FoundIsOperator(expr);
    forall k | IsOperatorAt(expr, k) ensures IndexOp(expr[1..]) == k - 1 {
      IndexOpAt(expr[1..], k - 1);
    }
  }

  lemma QuotientParts(a: int, b: int)
    requires b != 0
    ensures a - Quotient(a, b) * b == if a < 0 then -((Abs(a) % Abs(b)) as int) else Abs(a) % Abs(b)
  {
  }

  lemma QuotientFits(x: nat, y: nat)
    requires y >= 1
    ensures x / y <= x && (y >= 2 ==> 2 * (x / y) <= x)
  {
  }

  // Division is Go's: the quotient truncates, the remainder takes the dividend's sign, and only MIN / -1 wraps.
  lemma DivideTruncates(a: int64, b: int64)
    requires b != 0
    ensures var q := Quotient(a, b); var r := a - q * b;
            && Abs(r) < Abs(b) && (r == 0 || (r < 0 <==> a < 0))
            && (Fits(q) <==> !(a == MIN && b == -1))
            && (Fits(q) ==> Divide(a, b) == Ok(q))
    ensures Divide(MIN, -1) == Ok(MIN)
  {
    QuotientParts(a, b);
    QuotientFits(Abs(a), Abs(b));
  }
}
