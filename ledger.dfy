/**
 The expense ledger of the expense tracker page: the `Expense` record, the
 fixed list of category labels, and the values the page derives from the
 ledger (the running total and the per-category breakdown), together with
 the order-preserving filter that both deletion and the breakdown use.
 Amounts are exact reals; the page's JavaScript numbers are not modelled.
 */
module Ledger {

  /** One expense record. */
  datatype Expense = Expense(id: string, description: string, amount: real, category: string, date: string)

  /** One entry of the per-category breakdown. */
  datatype CategoryTotal = CategoryTotal(category: string, total: real)

  /** The fixed, ordered category labels; the first is the form's default. */
  const Categories: seq<string> := ["Food", "Transport", "Shopping", "Entertainment", "Bills", "Other"]

  predicate Distinct(cats: seq<string>)
  {
    forall i, j :: 0 <= i < j < |cats| ==> cats[i] != cats[j]
  }

  // ---------------------------------------------------------------------
  // Total: the amounts folded from the left, starting at 0
  // ---------------------------------------------------------------------

  /** A left fold over the ledger that adds each amount to the accumulator. */
  function Reduce(acc: real, l: seq<Expense>): real
    decreases |l|
  {
    if l == [] then acc else Reduce(acc + l[0].amount, l[1..])
  }

  /** The running total shown on the page: the fold started at 0. */
  function Total(l: seq<Expense>): (r: real)
    ensures l == [] ==> r == 0.0
  {
    Reduce(0.0, l)
  }

  /** Folding from any start value adds that value to the total. */
  lemma {:induction false} ReduceShift(acc: real, l: seq<Expense>)
    ensures Reduce(acc, l) == acc + Total(l)
    decreases |l|
  {
    if l != [] {
      ReduceShift(acc + l[0].amount, l[1..]);
      ReduceShift(l[0].amount, l[1..]);
    }
  }

  /** The total of the empty ledger is 0, and prepending a record adds its amount. */
  lemma {:induction false} TotalCons(r: Expense, l: seq<Expense>)
    ensures Total([]) == 0.0
    ensures Total([r] + l) == r.amount + Total(l)
  {
    assert ([r] + l)[0] == r;
    assert ([r] + l)[1..] == l;
    ReduceShift(r.amount, l);
  }

  /** The total of a concatenation is the sum of the totals. */
  lemma {:induction false} TotalAppend(a: seq<Expense>, b: seq<Expense>)
    ensures Total(a + b) == Total(a) + Total(b)
    decreases |a|
  {
    if a == [] {
      assert a + b == b;
    } else {
      assert a + b == [a[0]] + (a[1..] + b);
      assert a == [a[0]] + a[1..];
      TotalCons(a[0], a[1..] + b);
      TotalCons(a[0], a[1..]);
      TotalAppend(a[1..], b);
    }
  }

  /** The total does not depend on the order of the records. */
  lemma {:induction false} TotalPermutation(a: seq<Expense>, b: seq<Expense>)
    requires multiset(a) == multiset(b)
    ensures Total(a) == Total(b)
    decreases |a|
  {
    if a == [] {
      assert |b| == |multiset(b)| == 0;
    } else {
      var x := a[0];
      assert x in multiset(b);
      var i :| 0 <= i < |b| && b[i] == x;
      assert b == b[..i] + ([x] + b[i+1..]);
      assert a == [x] + a[1..];
      assert multiset(a[1..]) == multiset(b[..i] + b[i+1..]) by {
        var m1, m2 := multiset(b[..i]), multiset(b[i+1..]);
        assert multiset(b) == m1 + multiset([x] + b[i+1..]);
        assert multiset([x] + b[i+1..]) == multiset{x} + m2;
        assert multiset(b[..i] + b[i+1..]) == m1 + m2;
        assert multiset(a) == multiset{x} + multiset(a[1..]);
        forall y ensures multiset(a[1..])[y] == (m1 + m2)[y] {
          assert multiset(a)[y] == multiset(b)[y];
        }
      }
      TotalPermutation(a[1..], b[..i] + b[i+1..]);
      TotalAppend(b[..i], b[i+1..]);
      TotalAppend(b[..i], [x] + b[i+1..]);
      TotalCons(x, b[i+1..]);
      TotalCons(x, a[1..]);
    }
  }

  /** With no negative amount the total is not negative. */
  lemma {:induction false} TotalNonNegative(l: seq<Expense>)
    ensures (forall e :: e in l ==> e.amount >= 0.0) ==> Total(l) >= 0.0
    decreases |l|
  {
    if l != [] && forall e :: e in l ==> e.amount >= 0.0 {
      assert l == [l[0]] + l[1..];
      TotalCons(l[0], l[1..]);
      TotalNonNegative(l[1..]);
    }
  }

  // ---------------------------------------------------------------------
  // Filter: keep the elements that pass a test, in their order
  // ---------------------------------------------------------------------

  /** The elements of `s` that satisfy `keep`, in their original order. */
  function Filter<T(!new)>(s: seq<T>, keep: T -> bool): (r: seq<T>)
    ensures |r| <= |s|
    ensures forall x :: x in r <==> x in s && keep(x)
    decreases |s|
  {
    if s == [] then [] else (if keep(s[0]) then [s[0]] else []) + Filter(s[1..], keep)
  }

  /** Filtering distributes over concatenation: relative order is kept. */
  lemma {:induction false} FilterAppend<T(!new)>(a: seq<T>, b: seq<T>, keep: T -> bool)
    ensures Filter(a + b, keep) == Filter(a, keep) + Filter(b, keep)
    decreases |a|
  {
    if a == [] {
      assert a + b == b;
    } else {
      assert (a + b)[0] == a[0];
      assert (a + b)[1..] == a[1..] + b;
      FilterAppend(a[1..], b, keep);
    }
  }

  /** Each element keeps its multiplicity if it is kept, and has none otherwise. */
  lemma {:induction false} FilterCount<T(!new)>(s: seq<T>, keep: T -> bool, x: T)
    ensures multiset(Filter(s, keep))[x] == if keep(x) then multiset(s)[x] else 0
    decreases |s|
  {
    if s != [] {
      assert s == [s[0]] + s[1..];
      assert multiset(s) == multiset{s[0]} + multiset(s[1..]);
      FilterCount(s[1..], keep, x);
    }
  }

  /** Filtering a sequence whose every element is kept changes nothing. */
  lemma {:induction false} FilterKeepsAll<T(!new)>(s: seq<T>, keep: T -> bool)
    requires forall x :: x in s ==> keep(x)
    ensures Filter(s, keep) == s
    decreases |s|
  {
    if s != [] {
      assert s[0] in s;
      FilterKeepsAll(s[1..], keep);
      assert s == [s[0]] + s[1..];
    }
  }

  // ---------------------------------------------------------------------
  // Deletion: keep the records whose id differs
  // ---------------------------------------------------------------------

  /** The filter test of deletion: the record's id differs from `id`. */
  function HasOtherId(id: string): Expense -> bool
  {
    (e: Expense) => e.id != id
  }

  /** The ledger without the records whose id is `id`. */
  function Deleted(l: seq<Expense>, id: string): (r: seq<Expense>)
    ensures |r| <= |l|
    ensures forall e :: e in r <==> e in l && e.id != id
  {
    Filter(l, HasOtherId(id))
  }

  /** Deletion removes exactly the records carrying `id`, every one of them. */
  lemma DeletedRemovesExactly(l: seq<Expense>, id: string)
    ensures forall e :: e in Deleted(l, id) <==> e in l && e.id != id
    ensures forall e :: multiset(Deleted(l, id))[e] == if e.id == id then 0 else multiset(l)[e]
  {
    forall e ensures multiset(Deleted(l, id))[e] == if e.id == id then 0 else multiset(l)[e] {
      FilterCount(l, HasOtherId(id), e);
    }
  }

  /** Deletion keeps the relative order of the remaining records. */
  lemma DeletedKeepsOrder(a: seq<Expense>, b: seq<Expense>, id: string)
    ensures Deleted(a + b, id) == Deleted(a, id) + Deleted(b, id)
  {
    FilterAppend(a, b, HasOtherId(id));
  }

  /** Deleting an id that no record carries leaves the ledger as it was. */
  lemma DeletedAbsent(l: seq<Expense>, id: string)
    requires forall e :: e in l ==> e.id != id
    ensures Deleted(l, id) == l
  {
    FilterKeepsAll(l, HasOtherId(id));
  }

  /** Deleting the same id twice is the same as deleting it once. */
  lemma DeletedIdempotent(l: seq<Expense>, id: string)
    ensures Deleted(Deleted(l, id), id) == Deleted(l, id)
  {
    DeletedAbsent(Deleted(l, id), id);
  }

  // ---------------------------------------------------------------------
  // Breakdown: each category's subtotal in category order, keeping the
  // positive ones
  // ---------------------------------------------------------------------

  /** The filter test of a category's subtotal: the record has category `cat`. */
  function HasCategory(cat: string): Expense -> bool
  {
    (e: Expense) => e.category == cat
  }

  /** The records of category `cat`, in ledger order. */
  function OfCategory(l: seq<Expense>, cat: string): (r: seq<Expense>)
    ensures forall e :: e in r <==> e in l && e.category == cat
  {
    Filter(l, HasCategory(cat))
  }

  /** The sum of the amounts of the records of category `cat`. */
  function Subtotal(l: seq<Expense>, cat: string): (r: real)
    ensures (forall e :: e in l ==> e.amount >= 0.0) ==> r >= 0.0
    ensures (forall e :: e in l ==> e.category != cat) ==> r == 0.0
  {
    TotalNonNegative(OfCategory(l, cat));
    Total(OfCategory(l, cat))
  }

  /** One subtotal entry per category of `cats`, in the order of `cats`. */
  function Subtotals(cats: seq<string>, l: seq<Expense>): (r: seq<CategoryTotal>)
    ensures |r| == |cats|
    ensures forall i :: 0 <= i < |cats| ==> r[i] == CategoryTotal(cats[i], Subtotal(l, cats[i]))
    decreases |cats|
  {
    if cats == [] then [] else [CategoryTotal(cats[0], Subtotal(l, cats[0]))] + Subtotals(cats[1..], l)
  }

  predicate IsPositive(c: CategoryTotal)
  {
    c.total > 0.0
  }

  /** Position of the first occurrence of `c` in `cats`, or `|cats|` when it does not occur. */
  function IndexOf(cats: seq<string>, c: string): (k: nat)
    ensures k <= |cats|
    ensures k < |cats| <==> c in cats
    ensures k < |cats| ==> cats[k] == c
    decreases |cats|
  {
    if cats == [] then 0 else if cats[0] == c then 0 else 1 + IndexOf(cats[1..], c)
  }

  /** In a duplicate-free list, each category's position is where it stands. */
  lemma {:induction false} IndexOfAt(cats: seq<string>, k: int)
    requires Distinct(cats) && 0 <= k < |cats|
    ensures IndexOf(cats, cats[k]) == k
    decreases |cats|
  {
    if k > 0 {
      assert cats[0] != cats[k];
      assert Distinct(cats[1..]);
      IndexOfAt(cats[1..], k - 1);
    }
  }

  /** A category's subtotal is the sum over exactly the records of that category. */
  lemma SubtotalSelects(l: seq<Expense>, cat: string)
    ensures forall e :: e in OfCategory(l, cat) <==> e in l && e.category == cat
    ensures forall e :: multiset(OfCategory(l, cat))[e] == if e.category == cat then multiset(l)[e] else 0
  {
    forall e ensures multiset(OfCategory(l, cat))[e] == if e.category == cat then multiset(l)[e] else 0 {
      FilterCount(l, HasCategory(cat), e);
    }
  }

  /** A new record adds its amount to its own category's subtotal and nothing to the others. */
  lemma SubtotalCons(r: Expense, l: seq<Expense>, cat: string)
    ensures Subtotal([r] + l, cat) == (if r.category == cat then r.amount else 0.0) + Subtotal(l, cat)
  {
    FilterAppend([r], l, HasCategory(cat));
    assert Filter([r], HasCategory(cat)) == if r.category == cat then [r] else [];
    if r.category == cat {
      TotalCons(r, OfCategory(l, cat));
    } else {
      assert [] + OfCategory(l, cat) == OfCategory(l, cat);
    }
  }

  /** Every entry of the mapped list is about a category of `cats` and carries its subtotal. */
  lemma SubtotalsEntries(cats: seq<string>, l: seq<Expense>)
    ensures forall x :: x in Subtotals(cats, l) ==> x.category in cats && x.total == Subtotal(l, x.category)
  {
  }

  /** Every category of `cats` whose subtotal is positive is among the positive subtotals. */
  lemma PositiveSubtotalsComplete(cats: seq<string>, l: seq<Expense>)
    ensures forall c :: c in cats && Subtotal(l, c) > 0.0 ==>
      CategoryTotal(c, Subtotal(l, c)) in Filter(Subtotals(cats, l), IsPositive)
  {
    forall c | c in cats && Subtotal(l, c) > 0.0
      ensures CategoryTotal(c, Subtotal(l, c)) in Filter(Subtotals(cats, l), IsPositive)
    {
      var k := IndexOf(cats, c);
      assert Subtotals(cats, l)[k] in Subtotals(cats, l);
    }
  }

  /** The entries' categories stand in strictly increasing positions of `cats`. */
  predicate OrderedBy(cats: seq<string>, xs: seq<CategoryTotal>)
  {
    forall i, j :: 0 <= i < j < |xs| ==> IndexOf(cats, xs[i].category) < IndexOf(cats, xs[j].category)
  }

  /** Over a duplicate-free list, the mapped subtotals are in the order of the list. */
  lemma SubtotalsOrdered(cats: seq<string>, l: seq<Expense>)
    requires Distinct(cats)
    ensures OrderedBy(cats, Subtotals(cats, l))
  {
    var xs := Subtotals(cats, l);
    forall i, j | 0 <= i < j < |xs|
      ensures IndexOf(cats, xs[i].category) < IndexOf(cats, xs[j].category)
    {
      IndexOfAt(cats, i);
      IndexOfAt(cats, j);
    }
  }

  /** In an ordered list, the head comes before everything after it, and the rest is ordered. */
  lemma OrderedHeadTail(cats: seq<string>, xs: seq<CategoryTotal>)
    requires OrderedBy(cats, xs) && xs != []
    ensures forall y :: y in xs[1..] ==> IndexOf(cats, xs[0].category) < IndexOf(cats, y.category)
    ensures OrderedBy(cats, xs[1..])
  {
    forall y | y in xs[1..] ensures IndexOf(cats, xs[0].category) < IndexOf(cats, y.category) {
      var k :| 0 <= k < |xs[1..]| && xs[1..][k] == y;
      assert xs[k + 1] == y;
    }
    var t := xs[1..];
    forall i, j | 0 <= i < j < |t| ensures IndexOf(cats, t[i].category) < IndexOf(cats, t[j].category) {
      assert t[i] == xs[i + 1] && t[j] == xs[j + 1];
    }
  }

  /** An entry placed before an ordered list whose entries all come after it keeps it ordered. */
  lemma OrderedCons(cats: seq<string>, x: CategoryTotal, ys: seq<CategoryTotal>)
    requires OrderedBy(cats, ys)
    requires forall y :: y in ys ==> IndexOf(cats, x.category) < IndexOf(cats, y.category)
    ensures OrderedBy(cats, [x] + ys)
  {
    var r := [x] + ys;
    forall i, j | 0 <= i < j < |r| ensures IndexOf(cats, r[i].category) < IndexOf(cats, r[j].category) {
      assert r[j] == ys[j - 1];
      if i > 0 {
        assert r[i] == ys[i - 1];
      } else {
        assert ys[j - 1] in ys;
      }
    }
  }

  /** Filtering keeps an ordered list ordered. */
  lemma {:induction false} FilterKeepsOrder(cats: seq<string>, xs: seq<CategoryTotal>, keep: CategoryTotal -> bool)
    requires OrderedBy(cats, xs)
    ensures OrderedBy(cats, Filter(xs, keep))
    decreases |xs|
  {
    if xs != [] {
      var tail := Filter(xs[1..], keep);
      OrderedHeadTail(cats, xs);
      FilterKeepsOrder(cats, xs[1..], keep);
      if keep(xs[0]) {
        OrderedCons(cats, xs[0], tail);
      } else {
        assert Filter(xs, keep) == [] + tail;
      }
    }
  }

  lemma CategoriesDistinct()
    ensures Distinct(Categories)
  {
  }

  /**
   The breakdown shown on the page. It lists only categories of the fixed list
   whose subtotal is strictly positive, each with that subtotal; it lists every
   such category; and it follows the fixed category order, an entry's category
   standing strictly before any later entry's, so no category appears twice.
   */
  function Breakdown(l: seq<Expense>): (r: seq<CategoryTotal>)
    ensures |r| <= |Categories|
    ensures forall x :: x in r ==>
      x.category in Categories && x.total == Subtotal(l, x.category) && x.total > 0.0
    ensures forall c :: c in Categories && Subtotal(l, c) > 0.0 ==> CategoryTotal(c, Subtotal(l, c)) in r
    ensures forall i, j :: 0 <= i < j < |r| ==>
      IndexOf(Categories, r[i].category) < IndexOf(Categories, r[j].category)
  {
    SubtotalsEntries(Categories, l);
    PositiveSubtotalsComplete(Categories, l);
    CategoriesDistinct();
    SubtotalsOrdered(Categories, l);
    FilterKeepsOrder(Categories, Subtotals(Categories, l), IsPositive);
    Filter(Subtotals(Categories, l), IsPositive)
  }

  // ---------------------------------------------------------------------
  // The breakdown adds up to the total
  // ---------------------------------------------------------------------

  /** The sum of the entries of a breakdown. */
  function SumTotals(xs: seq<CategoryTotal>): real
    decreases |xs|
  {
    if xs == [] then 0.0 else xs[0].total + SumTotals(xs[1..])
  }

  /** Dropping entries that are not positive does not change a non-negative sum. */
  lemma {:induction false} SumPositiveOnly(xs: seq<CategoryTotal>)
    requires forall x :: x in xs ==> x.total >= 0.0
    ensures SumTotals(Filter(xs, IsPositive)) == SumTotals(xs)
    decreases |xs|
  {
    if xs != [] {
      assert xs[0] in xs;
      SumPositiveOnly(xs[1..]);
      var tail := Filter(xs[1..], IsPositive);
      if IsPositive(xs[0]) {
        assert Filter(xs, IsPositive) == [xs[0]] + tail;
        assert ([xs[0]] + tail)[1..] == tail;
      } else {
        assert xs[0].total == 0.0;
        assert Filter(xs, IsPositive) == [] + tail == tail;
      }
    }
  }

  /** What a record contributes to the subtotals of `cats`. */
  function Share(cats: seq<string>, r: Expense): real
    decreases |cats|
  {
    if cats == [] then 0.0 else (if cats[0] == r.category then r.amount else 0.0) + Share(cats[1..], r)
  }

  lemma {:induction false} ShareNone(cats: seq<string>, r: Expense)
    requires r.category !in cats
    ensures Share(cats, r) == 0.0
    decreases |cats|
  {
    if cats != [] {
      ShareNone(cats[1..], r);
    }
  }

  /** A record whose category occurs once in `cats` contributes exactly its amount. */
  lemma {:induction false} ShareOnce(cats: seq<string>, r: Expense)
    requires Distinct(cats) && r.category in cats
    ensures Share(cats, r) == r.amount
    decreases |cats|
  {
    assert Distinct(cats[1..]);
    if cats[0] == r.category {
      assert r.category !in cats[1..];
      ShareNone(cats[1..], r);
    } else {
      ShareOnce(cats[1..], r);
    }
  }

  lemma {:induction false} SumSubtotalsCons(cats: seq<string>, r: Expense, l: seq<Expense>)
    ensures SumTotals(Subtotals(cats, [r] + l)) == Share(cats, r) + SumTotals(Subtotals(cats, l))
    decreases |cats|
  {
    if cats != [] {
      SubtotalCons(r, l, cats[0]);
      SumSubtotalsCons(cats[1..], r, l);
    }
  }

  lemma {:induction false} SumSubtotalsEmpty(cats: seq<string>)
    ensures SumTotals(Subtotals(cats, [])) == 0.0
    decreases |cats|
  {
    if cats != [] {
      SumSubtotalsEmpty(cats[1..]);
    }
  }

  /** Over a duplicate-free list covering every record's category, the subtotals add up to the total. */
  lemma {:induction false} SumSubtotals(cats: seq<string>, l: seq<Expense>)
    requires Distinct(cats)
    requires forall e :: e in l ==> e.category in cats
    ensures SumTotals(Subtotals(cats, l)) == Total(l)
    decreases |l|
  {
    if l == [] {
      SumSubtotalsEmpty(cats);
    } else {
      assert l == [l[0]] + l[1..];
      SumSubtotalsCons(cats, l[0], l[1..]);
      ShareOnce(cats, l[0]);
      SumSubtotals(cats, l[1..]);
      TotalCons(l[0], l[1..]);
    }
  }

  /**
   When no amount is negative and every record has one of the fixed categories,
   the breakdown's subtotals add up to the total.
   */
  lemma BreakdownSumsToTotal(l: seq<Expense>)
    requires forall e :: e in l ==> e.amount >= 0.0 && e.category in Categories
    ensures SumTotals(Breakdown(l)) == Total(l)
  {
    CategoriesDistinct();
    SumSubtotals(Categories, l);
    SubtotalsEntries(Categories, l);
    SumPositiveOnly(Subtotals(Categories, l));
  }
}
