/** Money in int64 minor units that wrap, and the double-entry journal over it. */
module Money {
  import opened Int64

  datatype Error = InvalidAmount | CurrencyMismatch | EmptyAccount | Unbalanced | UnknownAccount

  datatype Result<+T> = Ok(value: T) | Err(error: Error)

  // A currency is a string of bytes, one character a byte.
  datatype Money = Money(amount: int64, currency: string)

  predicate Coded(currency: string) { |currency| == 3 }

  function New(amount: int64, currency: string): (r: Result<Money>)
    ensures r.Ok? <==> Coded(currency)
    ensures r.Ok? ==> r.value == Money(amount, currency)
    ensures r.Err? ==> r.error == InvalidAmount
  {
    if |currency| != 3 then Err(InvalidAmount) else Ok(Money(amount, currency))
  }

  function Add(m: Money, o: Money): (r: Result<Money>)
    ensures r.Ok? <==> Coded(m.currency) && o.currency == m.currency
    ensures r.Ok? ==> r.value.currency == m.currency
    ensures r.Ok? && Fits(m.amount + o.amount) ==> r.value.amount == m.amount + o.amount
    ensures r.Ok? && m.amount + o.amount > MAX ==> r.value.amount == m.amount + o.amount - TWO_64
    ensures r.Ok? && m.amount + o.amount < MIN ==> r.value.amount == m.amount + o.amount + TWO_64
    ensures r == Err(CurrencyMismatch) <==> Coded(m.currency) && Coded(o.currency) && m.currency != o.currency
    ensures r == Err(InvalidAmount) <==> !Coded(m.currency) || !Coded(o.currency)
  {
    if !Coded(m.currency) || !Coded(o.currency) then Err(InvalidAmount)
    else if m.currency != o.currency then Err(CurrencyMismatch)
    else Ok(Money(Wrap(m.amount + o.amount), m.currency))
  }

  // Negation wraps too: the minimum int64 is its own negation.
  lemma NegateCancels(a: int64)
    ensures Wrap(Wrap(-(a as int)) + a) == 0
  {
  }

  function Negate(m: Money): (r: Money)
    ensures r.currency == m.currency && Wrap(r.amount + m.amount) == 0
  {
    NegateCancels(m.amount);
    Money(Wrap(-(m.amount as int)), m.currency)
  }

  lemma NegateTwice(m: Money)
    ensures Negate(Negate(m)) == m
    ensures Negate(m) == m <==> m.amount == 0 || m.amount == MIN
  {
  }

  predicate IsZero(m: Money) { m.amount == 0 }
}

module Ledger {
  import opened Int64
  import opened Option
  import opened Sequences
  import opened Money

  datatype Line = Line(account: string, amount: Money)

  datatype Entry = Entry(id: int64, reference: string, lines: seq<Line>)

  // ---- Sums of lines ----

  // Which lines a sum is over.
  datatype Pick = All | On(account: string) | In(currency: string) | Among(accounts: seq<string>)

  predicate Picks(p: Pick, l: Line) {
    match p
    case All => true
    case On(a) => l.account == a
    case In(c) => l.amount.currency == c
    case Among(accounts) => l.account in accounts
  }

  function SumWhere(lines: seq<Line>, p: Pick): int {
    if lines == [] then 0
    else SumWhere(lines[..|lines| - 1], p)
         + (var l := lines[|lines| - 1]; if Picks(p, l) then l.amount.amount as int else 0)
  }

  lemma {:induction false} SumSplit(a: seq<Line>, b: seq<Line>, p: Pick)
    ensures SumWhere(a + b, p) == SumWhere(a, p) + SumWhere(b, p)
  {
    if b == [] {
      assert a + b == a;
    } else {
      assert (a + b)[..|a + b| - 1] == a + b[..|b| - 1];
      SumSplit(a, b[..|b| - 1], p);
    }
  }

  lemma {:induction false} SumSame(lines: seq<Line>, p: Pick, q: Pick)
    requires forall l :: l in lines ==> Picks(p, l) == Picks(q, l)
    ensures SumWhere(lines, p) == SumWhere(lines, q)
  {
    if lines == [] {
    } else {
      SumSame(lines[..|lines| - 1], p, q);
    }
  }

  lemma {:induction false} SumNone(lines: seq<Line>, p: Pick)
    requires forall l :: l in lines ==> !Picks(p, l)
    ensures SumWhere(lines, p) == 0
  {
    if lines == [] {
    } else {
      SumNone(lines[..|lines| - 1], p);
    }
  }

  // ---- Post ----

  function AddLines(total: Money, lines: seq<Line>): Result<Money>
    decreases |lines|
  {
    if lines == [] then Ok(total)
    else if lines[0].account == "" then Err(EmptyAccount)
    else match Add(total, lines[0].amount)
      case Err(e) => Err(e)
      case Ok(sum) => AddLines(sum, lines[1..])
  }

  function Check(ref: string, lines: seq<Line>): Result<Money> {
    if ref == "" then Err(InvalidAmount)
    else if |lines| < 2 then Err(Unbalanced)
    else match New(0, lines[0].amount.currency)
      case Err(e) => Err(e)
      case Ok(zero) =>
        match AddLines(zero, lines)
        case Err(e) => Err(e)
        case Ok(total) => if IsZero(total) then Ok(total) else Err(Unbalanced)
  }

  predicate Uniform(lines: seq<Line>, currency: string) {
    forall l :: l in lines ==> l.account != "" && l.amount.currency == currency
  }

  // What an entry must be: two lines or more, named accounts, one currency, and a sum that is 0 modulo 2^64.
  predicate Balanced(lines: seq<Line>) {
    && |lines| >= 2 && Coded(lines[0].amount.currency)
    && Uniform(lines, lines[0].amount.currency)
    && Wrap(SumWhere(lines, All)) == 0
  }

  lemma UniformCons(lines: seq<Line>, currency: string)
    requires lines != []
    ensures Uniform(lines, currency) <==>
            lines[0].account != "" && lines[0].amount.currency == currency && Uniform(lines[1..], currency)
  {
  }

  lemma SumCons(lines: seq<Line>, p: Pick)
    requires lines != []
    ensures SumWhere(lines, p) == (if Picks(p, lines[0]) then lines[0].amount.amount as int else 0) + SumWhere(lines[1..], p)
  {
    assert lines == [lines[0]] + lines[1..];
    SumSplit([lines[0]], lines[1..], p);
    assert [lines[0]][..0] == [];
  }

  // Adding one line at a time, wrapping each time, is wrapping the exact sum once.
  lemma WrapSum(a: int, b: int, rest: int)
    ensures Wrap(Wrap(a + b) + rest) == Wrap(a + (b + rest))
  {
  }

  lemma WrapSumCons(total: int, lines: seq<Line>, p: Pick)
    requires lines != [] && Picks(p, lines[0])
    ensures Wrap(Wrap(total + lines[0].amount.amount) + SumWhere(lines[1..], p)) == Wrap(total + SumWhere(lines, p))
  {
    SumCons(lines, p);
    WrapSum(total, lines[0].amount.amount, SumWhere(lines[1..], p));
  }

  lemma {:induction false} AddLinesIs(total: Money, lines: seq<Line>)
    requires Coded(total.currency)
    ensures AddLines(total, lines).Ok? <==> Uniform(lines, total.currency)
    ensures AddLines(total, lines).Ok? ==>
      AddLines(total, lines) == Ok(Money(Wrap(total.amount + SumWhere(lines, All)), total.currency))
    decreases |lines|
  {
    if lines == [] {
    } else {
      UniformCons(lines, total.currency);
      var next := Add(total, lines[0].amount);
      if lines[0].account != "" && next.Ok? {
        AddLinesIs(next.value, lines[1..]);
        WrapSumCons(total.amount, lines, All);
      }
    }
  }

  // Post accepts exactly the balanced entries with a reference.
  lemma CheckIff(ref: string, lines: seq<Line>)
    ensures Check(ref, lines).Ok? <==> ref != "" && Balanced(lines)
  {
    if |lines| >= 2 && Coded(lines[0].amount.currency) {
      AddLinesIs(Money(0, lines[0].amount.currency), lines);
    }
  }

  // Why a line cannot join an entry of the given currency, if it cannot.
  function Fault(l: Line, currency: string): Option<Error> {
    if l.account == "" then Some(EmptyAccount)
    else if !Coded(l.amount.currency) then Some(InvalidAmount)
    else if l.amount.currency != currency then Some(CurrencyMismatch)
    else None
  }

  lemma {:induction false} AddLinesBlames(total: Money, lines: seq<Line>, i: nat)
    requires Coded(total.currency) && i < |lines| && Fault(lines[i], total.currency).Some?
    requires forall j :: 0 <= j < i ==> Fault(lines[j], total.currency).None?
    ensures AddLines(total, lines) == Err(Fault(lines[i], total.currency).value)
    decreases i
  {
    if i == 0 {
    } else {
      assert Fault(lines[0], total.currency).None?;
      AddLinesBlames(Add(total, lines[0].amount).value, lines[1..], i - 1);
    }
  }

  // Which error: the first faulty line is blamed for what is wrong with it, and an imbalance only when no line is.
  lemma CheckBlames(ref: string, lines: seq<Line>, i: nat)
    requires ref != "" && |lines| >= 2 && Coded(lines[0].amount.currency) && i <= |lines|
    requires forall j :: 0 <= j < i ==> Fault(lines[j], lines[0].amount.currency).None?
    requires i < |lines| ==> Fault(lines[i], lines[0].amount.currency).Some?
    ensures i < |lines| ==> Check(ref, lines) == Err(Fault(lines[i], lines[0].amount.currency).value)
    ensures i == |lines| ==>
      if Wrap(SumWhere(lines, All)) == 0 then Check(ref, lines).Ok? else Check(ref, lines) == Err(Unbalanced)
  {
    var zero := Money(0, lines[0].amount.currency);
    if i < |lines| {
      AddLinesBlames(zero, lines, i);
    } else {
      AddLinesIs(zero, lines);
    }
  }

  // Before any line is looked at: the reference, the number of lines, and the first line's currency, in that order.
  lemma CheckOrder(ref: string, lines: seq<Line>)
    ensures ref == "" ==> Check(ref, lines) == Err(InvalidAmount)
    ensures ref != "" && |lines| < 2 ==> Check(ref, lines) == Err(Unbalanced)
    ensures ref != "" && |lines| >= 2 && !Coded(lines[0].amount.currency) ==> Check(ref, lines) == Err(InvalidAmount)
  {
  }

  datatype Books = Books(entries: seq<Entry>, nextID: int64)

  function PostStep(b: Books, ref: string, lines: seq<Line>): (Books, Result<Entry>) {
    match Check(ref, lines)
    case Err(e) => (b, Err(e))
    case Ok(_) =>
      var e := Entry(Wrap(b.nextID + 1), ref, lines);
      (Books(b.entries + [e], e.id), Ok(e))
  }

  // ---- Balance and Total ----

  function Flatten(entries: seq<Entry>): seq<Line> {
    if entries == [] then [] else entries[0].lines + Flatten(entries[1..])
  }

  function BalanceFrom(acc: Option<Money>, lines: seq<Line>, a: string): Result<Option<Money>>
    decreases |lines|
  {
    if lines == [] then Ok(acc)
    else if lines[0].account != a then BalanceFrom(acc, lines[1..], a)
    else match acc
      case None => BalanceFrom(Some(lines[0].amount), lines[1..], a)
      case Some(bal) =>
        match Add(bal, lines[0].amount)
        case Err(e) => Err(e)
        case Ok(sum) => BalanceFrom(Some(sum), lines[1..], a)
  }

  function BalanceOf(lines: seq<Line>, a: string): Result<Money> {
    match BalanceFrom(None, lines, a)
    case Err(e) => Err(e)
    case Ok(None) => Err(UnknownAccount)
    case Ok(Some(bal)) => Ok(bal)
  }

  function TotalFrom(total: Money, lines: seq<Line>, currency: string): Result<Money>
    decreases |lines|
  {
    if lines == [] then Ok(total)
    else if lines[0].amount.currency != currency then TotalFrom(total, lines[1..], currency)
    else match Add(total, lines[0].amount)
      case Err(e) => Err(e)
      case Ok(sum) => TotalFrom(sum, lines[1..], currency)
  }

  function TotalOf(lines: seq<Line>, currency: string): Result<Money> {
    match New(0, currency)
    case Err(e) => Err(e)
    case Ok(zero) => TotalFrom(zero, lines, currency)
  }

  class Journal {
    var entries: seq<Entry>
    var nextID: int64

    ghost function View(): Books
      reads this
    {
      Books(entries, nextID)
    }

    constructor ()
      ensures View() == Books([], 0)
    {
      entries, nextID := [], 0;
    }

    method Post(ref: string, lines: seq<Line>) returns (r: Result<Entry>)
      modifies this
      ensures (View(), r) == PostStep(old(View()), ref, lines)
      ensures r.Ok? <==> ref != "" && Balanced(lines)
      ensures r.Err? ==> View() == old(View())
      ensures r.Ok? ==> entries == old(entries) + [r.value] && nextID == r.value.id == Wrap(old(nextID) + 1)
      ensures r.Ok? ==> r.value.reference == ref && r.value.lines == lines
    {
      CheckIff(ref, lines);
      if ref == "" {
        return Err(InvalidAmount);
      }
      if |lines| < 2 {
        return Err(Unbalanced);
      }
      var zero := New(0, lines[0].amount.currency);
      if zero.Err? {
        return Err(zero.error);
      }
      var total := zero.value;
      for i := 0 to |lines|
        invariant AddLines(zero.value, lines) == AddLines(total, lines[i..])
      {
        var l := lines[i];
        if l.account == "" {
          return Err(EmptyAccount);
        }
        var sum := Add(total, l.amount);
        if sum.Err? {
          return Err(sum.error);
        }
        total := sum.value;
        assert lines[i..][1..] == lines[i + 1..];
      }
      if !IsZero(total) {
        return Err(Unbalanced);
      }
      nextID := Wrap(nextID + 1);
      var e := Entry(nextID, ref, lines);
      entries := entries + [e];
      return Ok(e);
    }

    method PostBalance(ref: string, from: string, to: string, m: Money) returns (r: Result<Entry>)
      modifies this
      ensures (View(), r) == PostStep(old(View()), ref, [Line(from, m), Line(to, Negate(m))])
      ensures r.Ok? <==> ref != "" && from != "" && to != "" && Coded(m.currency)
    {
      var lines := [Line(from, m), Line(to, Negate(m))];
      CheckIff(ref, lines);
      assert lines == [lines[0]] + [lines[1]];
      SumSplit([lines[0]], [lines[1]], All);
      assert [lines[0]][..0] == [] && [lines[1]][..0] == [];
      WrapAdd(m.amount, Negate(m).amount);
      assert lines[0] in lines && lines[1] in lines;
      r := Post(ref, lines);
    }

    method Balance(a: string) returns (r: Result<Money>)
      ensures r == BalanceOf(Flatten(entries), a)
    {
      var first := true;
      var bal := Money(0, "");
      ghost var all := Flatten(entries);
      for i := 0 to |entries|
        invariant BalanceFrom(None, all, a) ==
                  BalanceFrom(if first then None else Some(bal), Flatten(entries[i..]), a)
      {
        var e := entries[i];
        ghost var rest := Flatten(entries[i + 1..]);
        assert entries[i..][1..] == entries[i + 1..];
        for j := 0 to |e.lines|
          invariant BalanceFrom(None, all, a) ==
                    BalanceFrom(if first then None else Some(bal), e.lines[j..] + rest, a)
        {
          var l := e.lines[j];
          assert (e.lines[j..] + rest)[1..] == e.lines[j + 1..] + rest;
          if l.account != a {
            continue;
          }
          if first {
            bal := l.amount;
            first := false;
            continue;
          }
          var sum := Add(bal, l.amount);
          if sum.Err? {
            return Err(sum.error);
          }
          bal := sum.value;
        }
        assert e.lines[|e.lines|..] + rest == rest;
      }
      if first {
        return Err(UnknownAccount);
      }
      return Ok(bal);
    }

    method Total(currency: string) returns (r: Result<Money>)
      ensures r == TotalOf(Flatten(entries), currency)
    {
      var zero := New(0, currency);
      if zero.Err? {
        return Err(zero.error);
      }
      var total := zero.value;
      ghost var all := Flatten(entries);
      for i := 0 to |entries|
        invariant TotalFrom(zero.value, all, currency) == TotalFrom(total, Flatten(entries[i..]), currency)
      {
        var e := entries[i];
        ghost var rest := Flatten(entries[i + 1..]);
        assert entries[i..][1..] == entries[i + 1..];
        for j := 0 to |e.lines|
          invariant TotalFrom(zero.value, all, currency) == TotalFrom(total, e.lines[j..] + rest, currency)
        {
          var l := e.lines[j];
          assert (e.lines[j..] + rest)[1..] == e.lines[j + 1..] + rest;
          if l.amount.currency != currency {
            continue;
          }
          var sum := Add(total, l.amount);
          if sum.Err? {
            return Err(sum.error);
          }
          total := sum.value;
        }
        assert e.lines[|e.lines|..] + rest == rest;
      }
      return Ok(total);
    }

    method Entries() returns (out: seq<Entry>)
      ensures out == entries
    {
      out := entries;
    }
  }

  // ---- What Balance and Total mean ----

  predicate Touches(lines: seq<Line>, a: string) { exists l :: l in lines && l.account == a }

  predicate OnlyIn(lines: seq<Line>, a: string, currency: string) {
    forall l :: l in lines && l.account == a ==> l.amount.currency == currency
  }

  predicate AllCoded(lines: seq<Line>) { forall l :: l in lines ==> Coded(l.amount.currency) }

  lemma OnlyInCons(lines: seq<Line>, a: string, currency: string)
    requires lines != []
    ensures OnlyIn(lines, a, currency) <==>
            (lines[0].account == a ==> lines[0].amount.currency == currency) && OnlyIn(lines[1..], a, currency)
    ensures AllCoded(lines) <==> Coded(lines[0].amount.currency) && AllCoded(lines[1..])
    ensures Touches(lines, a) <==> lines[0].account == a || Touches(lines[1..], a)
  {
  }

  // The balance once a first line has been taken: the wrapped sum, or a currency error.
  function Expected(bal: Money, lines: seq<Line>, a: string): Result<Option<Money>> {
    if OnlyIn(lines, a, bal.currency) then Ok(Some(Money(Wrap(bal.amount + SumWhere(lines, On(a))), bal.currency)))
    else Err(CurrencyMismatch)
  }

  lemma ExpectedHit(bal: Money, lines: seq<Line>, a: string)
    requires AllCoded(lines) && Coded(bal.currency) && lines != [] && lines[0].account == a
    requires lines[0].amount.currency == bal.currency
    ensures Expected(Money(Wrap(bal.amount + lines[0].amount.amount), bal.currency), lines[1..], a)
            == Expected(bal, lines, a)
  {
    OnlyInCons(lines, a, bal.currency);
    WrapSumCons(bal.amount, lines, On(a));
  }

  lemma {:induction false} BalanceFromIs(bal: Money, lines: seq<Line>, a: string)
    requires AllCoded(lines) && Coded(bal.currency)
    ensures BalanceFrom(Some(bal), lines, a) == Expected(bal, lines, a)
    decreases |lines|
  {
    if lines == [] {
    } else {
      OnlyInCons(lines, a, bal.currency);
      if lines[0].account != a {
        SumCons(lines, On(a));
        BalanceFromIs(bal, lines[1..], a);
      } else if lines[0].amount.currency == bal.currency {
        BalanceFromIs(Add(bal, lines[0].amount).value, lines[1..], a);
        ExpectedHit(bal, lines, a);
      }
    }
  }

  // A balance is the wrapped sum of the account's lines when they share one currency, and an error otherwise.
  lemma {:induction false} BalanceIs(lines: seq<Line>, a: string, currency: string)
    requires AllCoded(lines)
    ensures BalanceOf(lines, a) == Err(UnknownAccount) <==> !Touches(lines, a)
    ensures BalanceOf(lines, a).Err? && Touches(lines, a) ==> BalanceOf(lines, a) == Err(CurrencyMismatch)
    ensures Touches(lines, a) && OnlyIn(lines, a, currency)
            ==> BalanceOf(lines, a) == Ok(Money(Wrap(SumWhere(lines, On(a))), currency))
    ensures BalanceOf(lines, a).Ok? && BalanceOf(lines, a).value.currency == currency
            ==> Touches(lines, a) && OnlyIn(lines, a, currency)
  {
    if lines == [] {
    } else {
      OnlyInCons(lines, a, currency);
      SumCons(lines, On(a));
      if lines[0].account == a {
        BalanceFromIs(lines[0].amount, lines[1..], a);
      } else {
        BalanceIs(lines[1..], a, currency);
      }
    }
  }

  lemma {:induction false} TotalFromIs(total: Money, lines: seq<Line>, currency: string)
    requires Coded(currency) && total.currency == currency
    ensures TotalFrom(total, lines, currency) == Ok(Money(Wrap(total.amount + SumWhere(lines, In(currency))), currency))
    decreases |lines|
  {
    if lines == [] {
    } else {
      if lines[0].amount.currency != currency {
        TotalFromIs(total, lines[1..], currency);
        SumCons(lines, In(currency));
      } else {
        TotalFromIs(Add(total, lines[0].amount).value, lines[1..], currency);
        WrapSumCons(total.amount, lines, In(currency));
      }
    }
  }

  // A total is the wrapped sum of the currency's lines.
  lemma TotalIs(lines: seq<Line>, currency: string)
    ensures TotalOf(lines, currency)
            == if Coded(currency) then Ok(Money(Wrap(SumWhere(lines, In(currency))), currency)) else Err(InvalidAmount)
  {
    if Coded(currency) {
      TotalFromIs(Money(0, currency), lines, currency);
    }
  }

  // ---- Runs of posts ----

  datatype Posting = Posting(reference: string, lines: seq<Line>)

  function Run(posts: seq<Posting>): Books {
    if posts == [] then Books([], 0)
    else
      var p := posts[|posts| - 1];
      PostStep(Run(posts[..|posts| - 1]), p.reference, p.lines).0
  }

  // IDs count up from 1 (wrapping), and every entry was accepted.
  ghost predicate Sound(b: Books) {
    && b.nextID == Wrap(|b.entries|)
    && forall i :: 0 <= i < |b.entries| ==>
         b.entries[i].id == Wrap(i + 1) && b.entries[i].reference != "" && Balanced(b.entries[i].lines)
  }

  lemma {:induction false} RunsAreSound(posts: seq<Posting>)
    ensures Sound(Run(posts))
  {
    if posts == [] {
    } else {
      var n := |posts| - 1;
      RunsAreSound(posts[..n]);
      CheckIff(posts[n].reference, posts[n].lines);
      WrapAdd(|Run(posts[..n]).entries|, 1);
    }
  }

  function AsPostings(entries: seq<Entry>): seq<Posting> {
    seq(|entries|, i requires 0 <= i < |entries| => Posting(entries[i].reference, entries[i].lines))
  }

  // The postings that are in order, in the order they came.
  function Accepted(posts: seq<Posting>): seq<Posting> {
    if posts == [] then []
    else
      var p := posts[|posts| - 1];
      Accepted(posts[..|posts| - 1]) + if p.reference != "" && Balanced(p.lines) then [p] else []
  }

  lemma PushPosting(entries: seq<Entry>, e: Entry)
    ensures AsPostings(entries + [e]) == AsPostings(entries) + [Posting(e.reference, e.lines)]
  {
  }

  // The journal is exactly those: nothing refused leaves a trace, nothing accepted is changed or dropped.
  lemma {:induction false} EntriesAreAccepted(posts: seq<Posting>)
    ensures AsPostings(Run(posts).entries) == Accepted(posts)
  {
    if posts == [] {
    } else {
      var n := |posts| - 1;
      EntriesAreAccepted(posts[..n]);
      CheckIff(posts[n].reference, posts[n].lines);
      PushPosting(Run(posts[..n]).entries, Entry(Wrap(Run(posts[..n]).nextID + 1), posts[n].reference, posts[n].lines));
    }
  }

  lemma {:induction false} FlattenSplit(a: seq<Entry>, b: seq<Entry>)
    ensures Flatten(a + b) == Flatten(a) + Flatten(b)
  {
    if a == [] {
      assert a + b == b;
    } else {
      assert (a + b)[1..] == a[1..] + b;
      FlattenSplit(a[1..], b);
    }
  }

  // An entry's lines in any one currency sum to 0 modulo 2^64.
  lemma EntryNets(lines: seq<Line>, currency: string)
    requires Balanced(lines)
    ensures Wrap(SumWhere(lines, In(currency))) == 0
  {
    if currency == lines[0].amount.currency {
      SumSame(lines, In(currency), All);
    } else {
      SumNone(lines, In(currency));
    }
  }

  lemma {:induction false} EntriesNet(entries: seq<Entry>, currency: string)
    requires forall i :: 0 <= i < |entries| ==> Balanced(entries[i].lines)
    ensures Wrap(SumWhere(Flatten(entries), In(currency))) == 0
    ensures AllCoded(Flatten(entries))
  {
    if entries == [] {
    } else {
      EntriesNet(entries[1..], currency);
      EntryNets(entries[0].lines, currency);
      SumSplit(entries[0].lines, Flatten(entries[1..]), In(currency));
      WrapZeroAdd(SumWhere(entries[0].lines, In(currency)), SumWhere(Flatten(entries[1..]), In(currency)));
    }
  }

  // After any run of posts, Total is zero for every currency.
  lemma TotalIsZero(posts: seq<Posting>, currency: string)
    ensures TotalOf(Flatten(Run(posts).entries), currency)
            == if Coded(currency) then Ok(Money(0, currency)) else Err(InvalidAmount)
  {
    RunsAreSound(posts);
    EntriesNet(Run(posts).entries, currency);
    TotalIs(Flatten(Run(posts).entries), currency);
  }

  // ---- The trial balance ----

  // Summing per account or per line is the same.
  lemma {:induction false} SumAmong(lines: seq<Line>, accounts: seq<string>, a: string)
    requires a !in accounts
    ensures SumWhere(lines, Among(accounts + [a])) == SumWhere(lines, Among(accounts)) + SumWhere(lines, On(a))
  {
    if lines == [] {
    } else {
      SumAmong(lines[..|lines| - 1], accounts, a);
    }
  }

  function SumBalances(lines: seq<Line>, accounts: seq<string>): int
    requires forall a :: a in accounts ==> BalanceOf(lines, a).Ok?
  {
    if accounts == [] then 0
    else
      SumBalances(lines, accounts[..|accounts| - 1]) + BalanceOf(lines, accounts[|accounts| - 1]).value.amount as int
  }

  lemma {:induction false} SumBalancesIs(lines: seq<Line>, accounts: seq<string>, currency: string)
    requires AllCoded(lines)
    requires forall i, j :: 0 <= i < j < |accounts| ==> accounts[i] != accounts[j]
    requires forall a :: a in accounts ==> BalanceOf(lines, a).Ok? && BalanceOf(lines, a).value.currency == currency
    ensures Wrap(SumBalances(lines, accounts)) == Wrap(SumWhere(lines, Among(accounts)))
  {
    if accounts == [] {
      SumNone(lines, Among([]));
    } else {
      var n := |accounts| - 1;
      var a := accounts[n];
      assert accounts == accounts[..n] + [a];
      SumBalancesIs(lines, accounts[..n], currency);
      SumAmong(lines, accounts[..n], a);
      BalanceIs(lines, a, currency);
      var x, y := SumBalances(lines, accounts[..n]), SumWhere(lines, Among(accounts[..n]));
      var z := SumWhere(lines, On(a));
      WrapAdd(x, z);
      WrapAdd(y, z);
    }
  }

  // accounts lists, without repetition, the accounts of a currency, each of which is used in no other.
  ghost predicate ListsAccounts(lines: seq<Line>, currency: string, accounts: seq<string>) {
    && (forall i, j :: 0 <= i < j < |accounts| ==> accounts[i] != accounts[j])
    && (forall l :: l in lines && l.amount.currency == currency ==> l.account in accounts)
    && (forall a :: a in accounts ==> BalanceOf(lines, a).Ok? && BalanceOf(lines, a).value.currency == currency)
  }

  lemma ListedSum(lines: seq<Line>, currency: string, accounts: seq<string>)
    requires AllCoded(lines) && ListsAccounts(lines, currency, accounts)
    ensures SumWhere(lines, Among(accounts)) == SumWhere(lines, In(currency))
  {
    forall l | l in lines ensures Picks(Among(accounts), l) == Picks(In(currency), l) {
      if l.account in accounts {
        BalanceIs(lines, l.account, currency);
      }
    }
    SumSame(lines, Among(accounts), In(currency));
  }

  // The derived balances of all accounts of a currency sum to zero modulo 2^64.
  lemma TrialBalance(posts: seq<Posting>, currency: string, accounts: seq<string>)
    requires ListsAccounts(Flatten(Run(posts).entries), currency, accounts)
    ensures Wrap(SumBalances(Flatten(Run(posts).entries), accounts)) == 0
  {
    var entries := Run(posts).entries;
    RunsAreSound(posts);
    EntriesNet(entries, currency);
    SumBalancesIs(Flatten(entries), accounts, currency);
    ListedSum(Flatten(entries), currency, accounts);
  }

  // An account whose lines mix currencies has no balance: exactly then is Balance a currency error.
  lemma MixedAccountHasNoBalance(posts: seq<Posting>, a: string)
    ensures var lines := Flatten(Run(posts).entries);
            BalanceOf(lines, a).Ok? <==> Touches(lines, a) && exists c :: OnlyIn(lines, a, c)
  {
    var lines := Flatten(Run(posts).entries);
    RunsAreSound(posts);
    EntriesNet(Run(posts).entries, "");
    if BalanceOf(lines, a).Ok? {
      BalanceIs(lines, a, BalanceOf(lines, a).value.currency);
    } else {
      BalanceIs(lines, a, "");
    }
    if Touches(lines, a) && exists c :: OnlyIn(lines, a, c) {
      var c :| OnlyIn(lines, a, c);
      BalanceIs(lines, a, c);
    }
  }

  // ---- Replay ----

  lemma RepostReproduces(b: Books, n: nat)
    requires Sound(b) && |b.entries| == n + 1
    ensures PostStep(Books(b.entries[..n], Wrap(n)), b.entries[n].reference, b.entries[n].lines).0 == b
  {
    CheckIff(b.entries[n].reference, b.entries[n].lines);
    WrapAdd(n, 1);
    assert b.entries == b.entries[..n] + [b.entries[n]];
  }

  lemma {:induction false} ReplaySound(b: Books)
    requires Sound(b)
    ensures Run(AsPostings(b.entries)) == b
    decreases |b.entries|
  {
    if b.entries == [] {
    } else {
      var n := |b.entries| - 1;
      var init := Books(b.entries[..n], Wrap(n));
      ReplaySound(init);
      assert AsPostings(b.entries)[..n] == AsPostings(init.entries);
      RepostReproduces(b, n);
    }
  }

  // Reposting Entries() in order into a fresh journal always succeeds and reproduces the journal: the same IDs
  // and lines, and so the same Balance and Total of everything.
  lemma ReplayReproduces(posts: seq<Posting>)
    ensures Run(AsPostings(Run(posts).entries)) == Run(posts)
    ensures forall i :: 0 <= i < |Run(posts).entries| ==>
      Check(Run(posts).entries[i].reference, Run(posts).entries[i].lines).Ok?
  {
    RunsAreSound(posts);
    var b := Run(posts);
    ReplaySound(b);
    forall i | 0 <= i < |b.entries| ensures Check(b.entries[i].reference, b.entries[i].lines).Ok? {
      CheckIff(b.entries[i].reference, b.entries[i].lines);
    }
  }

  // ---- Reversal ----

  function Reversal(lines: seq<Line>): seq<Line> {
    seq(|lines|, i requires 0 <= i < |lines| => Line(lines[i].account, Negate(lines[i].amount)))
  }

  predicate Cancels(l: Line, m: Line) {
    && l.account == m.account && l.amount.currency == m.amount.currency
    && Wrap(l.amount.amount + m.amount.amount) == 0
  }

  // ReversalEntry's loop; its ref parameter is not used.
  method ReversalEntry(orig: Entry) returns (lines: seq<Line>)
    ensures lines == Reversal(orig.lines)
    ensures |lines| == |orig.lines|
    ensures forall i :: 0 <= i < |lines| ==> Cancels(lines[i], orig.lines[i])
  {
    lines := [];
    for i := 0 to |orig.lines|
      invariant lines == Reversal(orig.lines[..i])
    {
      var l := orig.lines[i];
      lines := lines + [Line(l.account, Negate(l.amount))];
      assert orig.lines[..i + 1] == orig.lines[..i] + [l];
    }
    assert orig.lines[..|orig.lines|] == orig.lines;
  }

  // What one line adds to a sum.
  function Part(l: Line, p: Pick): int { if Picks(p, l) then l.amount.amount as int else 0 }

  lemma PartCancels(l: Line, p: Pick)
    ensures Wrap(Part(l, p) + Part(Line(l.account, Negate(l.amount)), p)) == 0
  {
  }

  lemma SumSnoc(lines: seq<Line>, p: Pick)
    requires lines != []
    ensures SumWhere(lines, p) == SumWhere(lines[..|lines| - 1], p) + Part(lines[|lines| - 1], p)
  {
  }

  // No pick looks at the amount, so in every sum the reversal cancels the original.
  lemma {:induction false} ReversalCancels(lines: seq<Line>, p: Pick)
    ensures Wrap(SumWhere(lines, p) + SumWhere(Reversal(lines), p)) == 0
  {
    if lines == [] {
    } else {
      var n := |lines| - 1;
      var r := Reversal(lines);
      ReversalCancels(lines[..n], p);
      assert r[..n] == Reversal(lines[..n]);
      PartCancels(lines[n], p);
      SumSnoc(lines, p);
      SumSnoc(r, p);
      WrapCancel(SumWhere(lines[..n], p), SumWhere(r[..n], p), Part(lines[n], p), Part(r[n], p));
    }
  }

  lemma ReversalBalanced(lines: seq<Line>)
    requires Balanced(lines)
    ensures Balanced(Reversal(lines)) && Reversal(lines)[0].amount.currency == lines[0].amount.currency
  {
    var r := Reversal(lines);
    forall l | l in r ensures l.account != "" && l.amount.currency == lines[0].amount.currency {
      var i :| 0 <= i < |lines| && r[i] == l;
      assert lines[i] in lines;
    }
    ReversalCancels(lines, All);
    WrapAdd(SumWhere(lines, All), SumWhere(r, All));
  }

  // The reversal of any posted entry is accepted with any reference, minimum int64 amounts included.
  lemma ReversalIsAccepted(posts: seq<Posting>, i: nat, ref: string)
    requires i < |Run(posts).entries| && ref != ""
    ensures PostStep(Run(posts), ref, Reversal(Run(posts).entries[i].lines)).1.Ok?
  {
    RunsAreSound(posts);
    ReversalBalanced(Run(posts).entries[i].lines);
    CheckIff(ref, Reversal(Run(posts).entries[i].lines));
  }

  lemma FlattenMiddle(x: seq<Entry>, e: Entry, y: seq<Entry>)
    ensures Flatten((x + [e]) + y) == Flatten(x) + (e.lines + Flatten(y))
  {
    assert (x + [e]) + y == x + ([e] + y);
    FlattenSplit(x, [e] + y);
    assert ([e] + y)[1..] == y;
  }

  lemma FlattenPush(es: seq<Entry>, e: Entry)
    ensures Flatten(es + [e]) == Flatten(es) + e.lines
  {
    FlattenMiddle(es, e, []);
    assert (es + [e]) + [] == es + [e] && e.lines + Flatten([]) == e.lines;
  }

  lemma FlattenAround(es: seq<Entry>, i: nat, last: Entry)
    requires i < |es|
    ensures Flatten(es[..i] + es[i + 1..]) == Flatten(es[..i]) + Flatten(es[i + 1..])
    ensures Flatten(es + [last]) == Flatten(es[..i]) + (es[i].lines + Flatten(es[i + 1..])) + last.lines
  {
    FlattenSplit(es[..i], es[i + 1..]);
    SplitAt(es, i);
    FlattenMiddle(es[..i], es[i], es[i + 1..]);
    FlattenPush(es, last);
  }

  lemma OnlyInRestored(x: seq<Line>, e: seq<Line>, y: seq<Line>, rev: seq<Line>, a: string, c: string)
    requires rev == Reversal(e)
    ensures OnlyIn(x + (e + y) + rev, a, c) <==> OnlyIn(x + y, a, c) && OnlyIn(e, a, c)
    ensures Touches(x + y, a) ==> Touches(x + (e + y) + rev, a)
    ensures forall d :: Touches(x + y, a) && OnlyIn(x + y, a, c) && OnlyIn(x + y, a, d) ==> c == d
  {
  }

  lemma RestoredParts(x: seq<Line>, e: seq<Line>, y: seq<Line>, rev: seq<Line>, p: Pick)
    ensures SumWhere(x + (e + y) + rev, p) == (SumWhere(e, p) + SumWhere(x + y, p)) + (SumWhere(rev, p) + 0)
  {
    SumSplit(x + (e + y), rev, p);
    SumSplit(x, e + y, p);
    SumSplit(e, y, p);
    SumSplit(x, y, p);
  }

  lemma SumRestored(x: seq<Line>, e: seq<Line>, y: seq<Line>, rev: seq<Line>, a: string)
    requires rev == Reversal(e)
    ensures Wrap(SumWhere(x + (e + y) + rev, On(a))) == Wrap(SumWhere(x + y, On(a)))
  {
    RestoredParts(x, e, y, rev, On(a));
    ReversalCancels(e, On(a));
    WrapCancel(SumWhere(e, On(a)), SumWhere(rev, On(a)), SumWhere(x + y, On(a)), 0);
  }

  lemma RestoresLines(x: seq<Line>, e: seq<Line>, y: seq<Line>, rev: seq<Line>, a: string)
    requires rev == Reversal(e) && AllCoded(x + (e + y) + rev)
    requires BalanceOf(x + y, a).Ok?
    ensures var without, after := BalanceOf(x + y, a), BalanceOf(x + (e + y) + rev, a);
            && (after == without <==> OnlyIn(e, a, without.value.currency))
            && (after != without ==> after == Err(CurrencyMismatch))
  {
    var all := x + (e + y) + rev;
    var c := BalanceOf(x + y, a).value.currency;
    assert AllCoded(x + y) by {
      assert forall l :: l in x + y ==> l in all;
    }
    BalanceIs(x + y, a, c);
    BalanceIs(all, a, c);
    OnlyInRestored(x, e, y, rev, a, c);
    SumRestored(x, e, y, rev, a);
    var after := BalanceOf(all, a);
    if after.Ok? {
      BalanceIs(all, a, after.value.currency);
      OnlyInRestored(x, e, y, rev, a, after.value.currency);
    }
  }

  // Reversing entry i puts every account back where it would be without that entry, as long as the account is
  // not used by it in a foreign currency; then it has no balance any more. For the latest entry, the journal
  // without it is the journal before it was posted.
  lemma ReversalRestores(posts: seq<Posting>, i: nat, ref: string, a: string)
    requires i < |Run(posts).entries| && ref != ""
    requires var es := Run(posts).entries; BalanceOf(Flatten(es[..i] + es[i + 1..]), a).Ok?
    ensures var es := Run(posts).entries;
            var without := BalanceOf(Flatten(es[..i] + es[i + 1..]), a);
            var after := PostStep(Run(posts), ref, Reversal(es[i].lines)).0;
            && (BalanceOf(Flatten(after.entries), a) == without
                <==> OnlyIn(es[i].lines, a, without.value.currency))
            && (BalanceOf(Flatten(after.entries), a) != without
                ==> BalanceOf(Flatten(after.entries), a) == Err(CurrencyMismatch))
  {
    var es := Run(posts).entries;
    RunsAreSound(posts);
    ReversalIsAccepted(posts, i, ref);
    ReversalBalanced(es[i].lines);
    var after := PostStep(Run(posts), ref, Reversal(es[i].lines)).0;
    EntriesNet(after.entries, "");
    FlattenAround(es, i, after.entries[|es|]);
    RestoresLines(Flatten(es[..i]), es[i].lines, Flatten(es[i + 1..]), Reversal(es[i].lines), a);
  }
}
