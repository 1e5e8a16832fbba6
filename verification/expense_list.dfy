/** The expense list's pipeline: a case-insensitive search over title and
    description, then a category filter, then a sort that puts the newest
    (or the largest) expense first. */
module ExpenseList {
  import opened Common
  import opened Types
  import opened Text

  datatype CategoryFilter = All | Only(category: Category)

  datatype SortBy = ByDate | ByAmount

  /** The title or the description contains the search term, ignoring case. */
  predicate MatchesSearch(e: Expense, term: string)
  {
    Includes(Lower(e.title), Lower(term)) ||
    (e.description.Some? && Includes(Lower(e.description.value), Lower(term)))
  }

  predicate InCategory(e: Expense, f: CategoryFilter)
  {
    f.All? || e.category == f.category
  }

  /** The search step. */
  function SearchFilter(es: seq<Expense>, term: string): (r: seq<Expense>)
    ensures forall e :: multiset(r)[e] == (if MatchesSearch(e, term) then multiset(es)[e] else 0)
  {
    if es == [] then []
    else
      assert es == [es[0]] + es[1..];
      (if MatchesSearch(es[0], term) then [es[0]] else []) + SearchFilter(es[1..], term)
  }

  /** The category step. */
  function CategoryStep(es: seq<Expense>, f: CategoryFilter): (r: seq<Expense>)
    ensures forall e :: multiset(r)[e] == (if InCategory(e, f) then multiset(es)[e] else 0)
  {
    if es == [] then []
    else
      assert es == [es[0]] + es[1..];
      (if InCategory(es[0], f) then [es[0]] else []) + CategoryStep(es[1..], f)
  }

  /** What the comparator compares: the timestamp or the amount. */
  function SortKey(e: Expense, order: SortBy): int
  {
    match order
    case ByDate => e.date.time
    case ByAmount => e.amount
  }

  /** Non-increasing in the sort key. */
  ghost predicate Descending(s: seq<Expense>, order: SortBy)
  {
    forall i, j :: 0 <= i < j < |s| ==> SortKey(s[i], order) >= SortKey(s[j], order)
  }

  /** Puts `x` in front of the first element with a key not above its own. */
  function Insert(x: Expense, s: seq<Expense>, order: SortBy): (r: seq<Expense>)
    requires Descending(s, order)
    ensures Descending(r, order)
    ensures multiset(r) == multiset(s) + multiset{x}
  {
    if s == [] then [x]
    else if SortKey(x, order) >= SortKey(s[0], order) then [x] + s
    else
      var rest := Insert(x, s[1..], order);
      assert s == [s[0]] + s[1..];
      HeadBoundsInsert(x, s, rest, order);
      ConsDescending(s[0], rest, order);
      [s[0]] + rest
  }

  /** An element whose key bounds every key of a descending sequence can go
      in front of it. */
  lemma ConsDescending(h: Expense, rest: seq<Expense>, order: SortBy)
    requires Descending(rest, order)
    requires forall k :: 0 <= k < |rest| ==> SortKey(h, order) >= SortKey(rest[k], order)
    ensures Descending([h] + rest, order)
  {
    var r := [h] + rest;
    forall i, j | 0 <= i < j < |r| ensures SortKey(r[i], order) >= SortKey(r[j], order) {
      assert r[j] == rest[j - 1];
      if i > 0 {
        assert r[i] == rest[i - 1];
      }
    }
  }

  /** When `x` goes after the head of `s`, the head's key bounds every key
      of the rest with `x` inserted. */
  lemma HeadBoundsInsert(x: Expense, s: seq<Expense>, rest: seq<Expense>, order: SortBy)
    requires s != [] && Descending(s, order)
    requires SortKey(x, order) < SortKey(s[0], order)
    requires multiset(rest) == multiset(s[1..]) + multiset{x}
    ensures forall k :: 0 <= k < |rest| ==> SortKey(s[0], order) >= SortKey(rest[k], order)
  {
    forall k | 0 <= k < |rest| ensures SortKey(s[0], order) >= SortKey(rest[k], order) {
      assert rest[k] in multiset(rest);
      if rest[k] != x {
        assert rest[k] in multiset(s[1..]);
        var m :| 0 <= m < |s[1..]| && s[1..][m] == rest[k];
        assert s[m + 1] == rest[k];
      }
    }
  }

  /** The descending sort, by insertion. */
  function Sort(s: seq<Expense>, order: SortBy): (r: seq<Expense>)
    ensures Descending(r, order)
    ensures multiset(r) == multiset(s)
  {
    if s == [] then []
    else
      assert s == [s[0]] + s[1..];
      Insert(s[0], Sort(s[1..], order), order)
  }

  /** The list the page shows. */
  function FilteredExpenses(es: seq<Expense>, term: string, f: CategoryFilter, order: SortBy): (r: seq<Expense>)
    ensures Descending(r, order)
    ensures forall e ::
      multiset(r)[e] == (if MatchesSearch(e, term) && InCategory(e, f) then multiset(es)[e] else 0)
  {
    Sort(CategoryStep(SearchFilter(es, term), f), order)
  }

  /** Every listed expense matches the search and the category filter, and
      the list never holds an expense more often than the input does. */
  lemma ListedExpensesMatch(es: seq<Expense>, term: string, f: CategoryFilter, order: SortBy)
    ensures var r := FilteredExpenses(es, term, f, order);
      multiset(r) <= multiset(es) &&
      forall i :: 0 <= i < |r| ==> MatchesSearch(r[i], term) && InCategory(r[i], f) && r[i] in es
  {
    var r := FilteredExpenses(es, term, f, order);
    forall i | 0 <= i < |r| ensures MatchesSearch(r[i], term) && InCategory(r[i], f) && r[i] in es {
      assert r[i] in multiset(r);
    }
  }

  /** An empty search with every category lists every expense, as a
      permutation of the input. */
  lemma EmptySearchListsAll(es: seq<Expense>, order: SortBy)
    ensures multiset(FilteredExpenses(es, "", All, order)) == multiset(es)
  {
    forall e ensures MatchesSearch(e, "") {
      IncludesEmpty(Lower(e.title));
    }
  }
}
