/** The two aggregation helpers over a list of expenses: per-category totals
    for the spending chart, and the partition of expenses by calendar day. */
module Aggregates {
  import opened Common
  import opened Types
  import opened Categories

  // ----- Category totals -----

  /** The running totals object of `calculateCategoryTotals`: one
      (category, sum) pair per category seen so far, in the order the
      categories were first seen. */
  type Totals = seq<(Category, int)>

  /** One slice of the spending chart. */
  datatype ChartData = ChartData(name: string, value: int, color: string)

  function KeysOf(t: Totals): set<Category>
  {
    set i | 0 <= i < |t| :: t[i].0
  }

  lemma KeysCons(x: (Category, int), t: Totals)
    ensures KeysOf([x] + t) == {x.0} + KeysOf(t)
  {
    var r := [x] + t;
    forall c | c in KeysOf(r) ensures c in {x.0} + KeysOf(t) {
      var i :| 0 <= i < |r| && r[i].0 == c;
      if i > 0 { assert t[i - 1].0 == c; }
    }
    forall c | c in KeysOf(t) ensures c in KeysOf(r) {
      var i :| 0 <= i < |t| && t[i].0 == c;
      assert r[i + 1].0 == c;
    }
    assert r[0].0 == x.0;
  }

  ghost predicate DistinctKeys(t: Totals)
  {
    forall i, j :: 0 <= i < j < |t| ==> t[i].0 != t[j].0
  }

  /** `acc[c] || 0`. */
  function Get(t: Totals, c: Category): int
  {
    if t == [] then 0 else if t[0].0 == c then t[0].1 else Get(t[1..], c)
  }

  function ValueSum(t: Totals): int
  {
    if t == [] then 0 else t[0].1 + ValueSum(t[1..])
  }

  /** `acc[c] = (acc[c] || 0) + a`: adds to an existing entry in place or
      appends a new one. */
  function AddTo(t: Totals, c: Category, a: int): (r: Totals)
    ensures c !in KeysOf(t) ==> r == t + [(c, a)]
    ensures c in KeysOf(t) ==> |r| == |t| && forall i :: 0 <= i < |t| ==> r[i].0 == t[i].0
  {
    if t == [] then [(c, a)]
    else if t[0].0 == c then [(c, t[0].1 + a)] + t[1..]
    else
      assert t == [t[0]] + t[1..];
      KeysCons(t[0], t[1..]);
      [t[0]] + AddTo(t[1..], c, a)
  }

  lemma {:induction false} AddToKeys(t: Totals, c: Category, a: int)
    ensures KeysOf(AddTo(t, c, a)) == KeysOf(t) + {c}
  {
    if t == [] {
      KeysCons((c, a), []);
      assert [(c, a)] + [] == [(c, a)];
    } else {
      assert t == [t[0]] + t[1..];
      KeysCons(t[0], t[1..]);
      if t[0].0 == c {
        KeysCons((c, t[0].1 + a), t[1..]);
      } else {
        AddToKeys(t[1..], c, a);
        KeysCons(t[0], AddTo(t[1..], c, a));
      }
    }
  }

  /** Adding to an entry reads back as the old value plus the amount, and
      every other category reads as before; the sum of all values grows by
      the amount. */
  lemma {:induction false} AddToValues(t: Totals, c: Category, a: int)
    requires DistinctKeys(t)
    ensures forall d :: Get(AddTo(t, c, a), d) == Get(t, d) + (if d == c then a else 0)
    ensures ValueSum(AddTo(t, c, a)) == ValueSum(t) + a
  {
    if t != [] {
      if t[0].0 == c {
        NotInGet(t[1..], c);
        assert AddTo(t, c, a)[1..] == t[1..];
      } else {
        AddToValues(t[1..], c, a);
        assert AddTo(t, c, a)[1..] == AddTo(t[1..], c, a);
      }
    }
  }

  lemma {:induction false} AddToDistinct(t: Totals, c: Category, a: int)
    requires DistinctKeys(t)
    ensures DistinctKeys(AddTo(t, c, a))
  {
    var r := AddTo(t, c, a);
    if c !in KeysOf(t) {
      assert r == t + [(c, a)];
      forall i, j | 0 <= i < j < |r| ensures r[i].0 != r[j].0 {
        if j == |t| {
          assert t[i].0 in KeysOf(t);
        }
      }
    }
  }

  /** A category without an entry reads as 0. */
  lemma {:induction false} NotInGet(t: Totals, c: Category)
    requires c !in KeysOf(t)
    ensures Get(t, c) == 0
  {
    if t != [] {
      assert t == [t[0]] + t[1..];
      KeysCons(t[0], t[1..]);
      NotInGet(t[1..], c);
    }
  }

  function FoldTotals(t: Totals, es: seq<Expense>): Totals
    decreases es
  {
    if es == [] then t else FoldTotals(AddTo(t, es[0].category, es[0].amount), es[1..])
  }

  /** `calculateCategoryTotals(expenses)`: one slice per category that
      occurs, in first-seen order, no category twice, each slice labelled and
      coloured for its category and holding that category's sum; the slices'
      values add up to the sum of all amounts. */
  function CategoryTotals(es: seq<Expense>): (r: seq<ChartData>)
    ensures var t := FoldTotals([], es);
      && DistinctKeys(t)
      && KeysOf(t) == CategoriesOf(es)
      && |r| == |t|
      && (forall i :: 0 <= i < |t| ==> r[i] == ChartData(Label(t[i].0), CategorySum(es, t[i].0), Color(t[i].0)))
      && ValueSum(t) == SumOf(es, Amount)
    ensures SumOf(r, SliceValue) == SumOf(es, Amount)
  {
    var t := FoldTotals([], es);
    FoldTotalsFromEmpty(es);
    var r := seq(|t|, i requires 0 <= i < |t| => ChartData(Label(t[i].0), t[i].1, ColorOfKey(Key(t[i].0))));
    SliceSum(r, t);
    r
  }

  /** The value a chart slice shows. */
  function SliceValue(d: ChartData): int
  {
    d.value
  }

  /** Slices carrying the totals' values add up to the totals' sum. */
  lemma {:induction false} SliceSum(r: seq<ChartData>, t: Totals)
    requires |r| == |t|
    requires forall i :: 0 <= i < |t| ==> r[i].value == t[i].1
    ensures SumOf(r, SliceValue) == ValueSum(t)
  {
    if t != [] {
      SliceSum(r[1..], t[1..]);
    }
  }

  /** Total amount of the expenses in category `c`. */
  function CategorySum(es: seq<Expense>, c: Category): int
  {
    if es == [] then 0 else (if es[0].category == c then es[0].amount else 0) + CategorySum(es[1..], c)
  }

  function CategoriesOf(es: seq<Expense>): set<Category>
  {
    set i | 0 <= i < |es| :: es[i].category
  }

  lemma CategoriesCons(es: seq<Expense>)
    requires es != []
    ensures CategoriesOf(es) == {es[0].category} + CategoriesOf(es[1..])
  {
    forall c | c in CategoriesOf(es) ensures c in {es[0].category} + CategoriesOf(es[1..]) {
      var i :| 0 <= i < |es| && es[i].category == c;
      if i > 0 { assert es[1..][i - 1].category == c; }
    }
    forall c | c in CategoriesOf(es[1..]) ensures c in CategoriesOf(es) {
      var i :| 0 <= i < |es[1..]| && es[1..][i].category == c;
      assert es[i + 1].category == c;
    }
  }

  lemma {:induction false} FoldTotalsCorrect(t: Totals, es: seq<Expense>)
    requires DistinctKeys(t)
    ensures DistinctKeys(FoldTotals(t, es))
    ensures KeysOf(FoldTotals(t, es)) == KeysOf(t) + CategoriesOf(es)
    ensures forall c :: Get(FoldTotals(t, es), c) == Get(t, c) + CategorySum(es, c)
    ensures ValueSum(FoldTotals(t, es)) == ValueSum(t) + SumOf(es, Amount)
    decreases es
  {
    if es != [] {
      var t' := AddTo(t, es[0].category, es[0].amount);
      AddToKeys(t, es[0].category, es[0].amount);
      AddToValues(t, es[0].category, es[0].amount);
      AddToDistinct(t, es[0].category, es[0].amount);
      FoldTotalsCorrect(t', es[1..]);
      CategoriesCons(es);
      assert FoldTotals(t, es) == FoldTotals(t', es[1..]);
      forall c ensures Get(FoldTotals(t, es), c) == Get(t, c) + CategorySum(es, c) {
        assert Get(t', c) == Get(t, c) + (if c == es[0].category then es[0].amount else 0);
      }
    }
  }

  /** Each entry of `t` holds what `Get` reads for its category. */
  lemma {:induction false} GetEntry(t: Totals, i: int)
    requires DistinctKeys(t) && 0 <= i < |t|
    ensures Get(t, t[i].0) == t[i].1
  {
    if i > 0 {
      assert t[0].0 != t[i].0;
      GetEntry(t[1..], i - 1);
    }
  }

  /** The totals built from nothing: distinct keys, exactly the categories
      seen, each entry holding its category's sum and finding its colour, and
      the entries adding up to the sum of all amounts. */
  lemma FoldTotalsFromEmpty(es: seq<Expense>)
    ensures var t := FoldTotals([], es);
      && DistinctKeys(t)
      && KeysOf(t) == CategoriesOf(es)
      && (forall i :: 0 <= i < |t| ==> t[i].1 == CategorySum(es, t[i].0))
      && (forall i :: 0 <= i < |t| ==> ColorOfKey(Key(t[i].0)) == Color(t[i].0))
      && ValueSum(t) == SumOf(es, Amount)
  {
    var t := FoldTotals([], es);
    FoldTotalsCorrect([], es);
    forall i | 0 <= i < |t| ensures t[i].1 == CategorySum(es, t[i].0) {
      GetEntry(t, i);
    }
    forall i | 0 <= i < |t| ensures ColorOfKey(Key(t[i].0)) == Color(t[i].0) {
      KeyFindsOwnEntry(t[i].0);
    }
  }

  // ----- Grouping by day -----

  /** The expenses of `es` on day `k`, in their order in `es`. */
  function OnDay(es: seq<Expense>, k: string): seq<Expense>
  {
    if es == [] then [] else (if es[0].date.day == k then [es[0]] else []) + OnDay(es[1..], k)
  }

  function DaysOf(es: seq<Expense>): set<string>
  {
    set i | 0 <= i < |es| :: es[i].date.day
  }

  /** `groups[day].push(expense)`, creating the bucket on first use. */
  function Push(m: map<string, seq<Expense>>, e: Expense): map<string, seq<Expense>>
  {
    var k := e.date.day;
    m[k := (if k in m then m[k] else []) + [e]]
  }

  function GroupFold(m: map<string, seq<Expense>>, es: seq<Expense>): map<string, seq<Expense>>
    decreases es
  {
    if es == [] then m else GroupFold(Push(m, es[0]), es[1..])
  }

  /** `groupExpensesByDate(expenses)`, keyed by the day key: one bucket per
      day that occurs, holding exactly that day's expenses in input order. */
  function GroupByDate(es: seq<Expense>): (r: map<string, seq<Expense>>)
    ensures r.Keys == DaysOf(es)
    ensures forall k :: k in r ==> r[k] == OnDay(es, k)
  {
    GroupFoldFromEmpty(es);
    GroupFold(map[], es)
  }

  function Bucket(m: map<string, seq<Expense>>, k: string): seq<Expense>
  {
    if k in m then m[k] else []
  }

  lemma DaysCons(es: seq<Expense>)
    requires es != []
    ensures DaysOf(es) == {es[0].date.day} + DaysOf(es[1..])
  {
    forall d | d in DaysOf(es) ensures d in {es[0].date.day} + DaysOf(es[1..]) {
      var i :| 0 <= i < |es| && es[i].date.day == d;
      if i > 0 { assert es[1..][i - 1].date.day == d; }
    }
    forall d | d in DaysOf(es[1..]) ensures d in DaysOf(es) {
      var i :| 0 <= i < |es[1..]| && es[1..][i].date.day == d;
      assert es[i + 1].date.day == d;
    }
  }

  /** Pushing one expense adds its day's key, if new. */
  lemma PushKeys(m: map<string, seq<Expense>>, e: Expense)
    ensures Push(m, e).Keys == m.Keys + {e.date.day}
  {
  }

  /** Pushing one expense grows its own day's bucket and no other. */
  lemma PushBucket(m: map<string, seq<Expense>>, e: Expense, k: string)
    ensures Bucket(Push(m, e), k) == Bucket(m, k) + (if e.date.day == k then [e] else [])
  {
  }

  lemma {:induction false} GroupFoldKeys(m: map<string, seq<Expense>>, es: seq<Expense>)
    ensures GroupFold(m, es).Keys == m.Keys + DaysOf(es)
    decreases es
  {
    if es != [] {
      GroupFoldKeys(Push(m, es[0]), es[1..]);
      PushKeys(m, es[0]);
      DaysCons(es);
    }
  }

  lemma {:induction false} GroupFoldBucket(m: map<string, seq<Expense>>, es: seq<Expense>, k: string)
    ensures Bucket(GroupFold(m, es), k) == Bucket(m, k) + OnDay(es, k)
    decreases es
  {
    if es != [] {
      var m' := Push(m, es[0]);
      GroupFoldBucket(m', es[1..], k);
      PushBucket(m, es[0], k);
      var h := if es[0].date.day == k then [es[0]] else [];
      assert OnDay(es, k) == h + OnDay(es[1..], k);
      assert Bucket(m, k) + h + OnDay(es[1..], k) == Bucket(m, k) + (h + OnDay(es[1..], k));
    }
  }

  /** One bucket per day that occurs; the bucket of a day holds exactly the
      expenses of that day, in input order. */
  lemma GroupFoldFromEmpty(es: seq<Expense>)
    ensures GroupFold(map[], es).Keys == DaysOf(es)
    ensures forall k :: k in GroupFold(map[], es) ==> GroupFold(map[], es)[k] == OnDay(es, k)
  {
    GroupFoldKeys(map[], es);
    forall k | k in GroupFold(map[], es) ensures GroupFold(map[], es)[k] == OnDay(es, k) {
      GroupFoldBucket(map[], es, k);
      assert Bucket(map[], k) == [];
    }
  }

  lemma {:induction false} OnDayContents(es: seq<Expense>, k: string)
    ensures multiset(OnDay(es, k)) <= multiset(es)
    ensures forall e :: e in OnDay(es, k) <==> e in es && e.date.day == k
  {
    if es != [] {
      OnDayContents(es[1..], k);
      assert es == [es[0]] + es[1..];
    }
  }

  /** Every expense sits in exactly one bucket, the one of its own day, and
      the buckets together hold each expense as often as the input does. */
  lemma EveryExpenseInOneBucket(es: seq<Expense>, e: Expense)
    requires e in es
    ensures e.date.day in GroupByDate(es) && e in GroupByDate(es)[e.date.day]
    ensures forall k :: k in GroupByDate(es) && k != e.date.day ==> e !in GroupByDate(es)[k]
    ensures multiset(GroupByDate(es)[e.date.day])[e] == multiset(es)[e]
  {
    var i :| 0 <= i < |es| && es[i] == e;
    assert e.date.day in DaysOf(es);
    OnDayContents(es, e.date.day);
    forall k | k in GroupByDate(es) && k != e.date.day ensures e !in GroupByDate(es)[k] {
      OnDayContents(es, k);
    }
    OnDayCount(es, e);
  }

  lemma {:induction false} OnDayCount(es: seq<Expense>, e: Expense)
    ensures multiset(OnDay(es, e.date.day))[e] == multiset(es)[e]
  {
    if es != [] {
      OnDayCount(es[1..], e);
      assert es == [es[0]] + es[1..];
    }
  }
}
