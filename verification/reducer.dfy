/** The application store's reducer: a pure transition from a state and an
    action to the next state. Each action rewrites at most one field. */
module AppReducer {
  import opened Common
  import opened Types

  datatype AppState = AppState(
    user: Option<User>,
    expenses: seq<Expense>,
    groups: seq<Group>,
    budgets: seq<Budget>,
    insights: seq<Insight>,
    loading: bool,
    error: Option<string>)

  /** The thirteen actions, plus any action whose type string the reducer
      does not know. */
  datatype Action =
    | SetUser(user: Option<User>)
    | AddExpense(expense: Expense)
    | UpdateExpense(expense: Expense)
    | DeleteExpense(id: Id)
    | SetExpenses(expenses: seq<Expense>)
    | AddGroup(group: Group)
    | UpdateGroup(group: Group)
    | DeleteGroup(id: Id)
    | SetGroups(groups: seq<Group>)
    | SetBudgets(budgets: seq<Budget>)
    | SetInsights(insights: seq<Insight>)
    | SetLoading(loading: bool)
    | SetError(error: Option<string>)
    | Unrecognised(tag: string)

  /** The actions that write the expense list. */
  predicate WritesExpenses(a: Action)
  {
    a.AddExpense? || a.UpdateExpense? || a.DeleteExpense? || a.SetExpenses?
  }

  /** The actions that write the group list. */
  predicate WritesGroups(a: Action)
  {
    a.AddGroup? || a.UpdateGroup? || a.DeleteGroup? || a.SetGroups?
  }

  // ----- List updates by id -----

  /** `xs.map(x => idOf(x) === idOf(y) ? y : x)`. */
  function ReplaceById<T>(xs: seq<T>, y: T, idOf: T -> Id): (r: seq<T>)
    ensures |r| == |xs|
    ensures forall i :: 0 <= i < |xs| ==> r[i] == (if idOf(xs[i]) == idOf(y) then y else xs[i])
  {
    if xs == [] then [] else [if idOf(xs[0]) == idOf(y) then y else xs[0]] + ReplaceById(xs[1..], y, idOf)
  }

  /** `xs.filter(x => idOf(x) !== id)`. */
  function RemoveById<T>(xs: seq<T>, id: Id, idOf: T -> Id): (r: seq<T>)
    ensures forall i :: 0 <= i < |r| ==> idOf(r[i]) != id
    ensures multiset(r) <= multiset(xs)
  {
    if xs == [] then []
    else
      var rest := RemoveById(xs[1..], id, idOf);
      assert xs == [xs[0]] + xs[1..];
      if idOf(xs[0]) != id then [xs[0]] + rest else rest
  }

  /** Every entry with another id is kept. */
  lemma {:induction false} RemoveByIdKeeps<T>(xs: seq<T>, id: Id, idOf: T -> Id)
    ensures forall i :: 0 <= i < |xs| && idOf(xs[i]) != id ==> xs[i] in RemoveById(xs, id, idOf)
  {
    if xs != [] {
      RemoveByIdKeeps(xs[1..], id, idOf);
      forall i | 1 <= i < |xs| && idOf(xs[i]) != id ensures xs[i] in RemoveById(xs, id, idOf) {
        assert xs[i] == xs[1..][i - 1];
      }
    }
  }

  /** `appReducer(state, action)`. */
  function Reduce(s: AppState, a: Action): (t: AppState)
    ensures !a.SetUser? ==> t.user == s.user
    ensures !WritesExpenses(a) ==> t.expenses == s.expenses
    ensures !WritesGroups(a) ==> t.groups == s.groups
    ensures !a.SetBudgets? ==> t.budgets == s.budgets
    ensures !a.SetInsights? ==> t.insights == s.insights
    ensures !a.SetLoading? ==> t.loading == s.loading
    ensures !a.SetError? ==> t.error == s.error
  {
    match a
    case SetUser(u) => s.(user := u)
    case AddExpense(e) => s.(expenses := s.expenses + [e])
    case UpdateExpense(e) => s.(expenses := ReplaceById(s.expenses, e, ExpenseId))
    case DeleteExpense(id) => s.(expenses := RemoveById(s.expenses, id, ExpenseId))
    case SetExpenses(es) => s.(expenses := es)
    case AddGroup(g) => s.(groups := s.groups + [g])
    case UpdateGroup(g) => s.(groups := ReplaceById(s.groups, g, GroupId))
    case DeleteGroup(id) => s.(groups := RemoveById(s.groups, id, GroupId))
    case SetGroups(gs) => s.(groups := gs)
    case SetBudgets(bs) => s.(budgets := bs)
    case SetInsights(ins) => s.(insights := ins)
    case SetLoading(l) => s.(loading := l)
    case SetError(e) => s.(error := e)
    case Unrecognised(_) => s
  }

  // ----- Laws of the list updates -----

  /** Replacing an id nothing carries changes nothing. */
  lemma {:induction false} ReplaceAbsentId<T>(xs: seq<T>, y: T, idOf: T -> Id)
    requires forall i :: 0 <= i < |xs| ==> idOf(xs[i]) != idOf(y)
    ensures ReplaceById(xs, y, idOf) == xs
  {
    if xs != [] {
      ReplaceAbsentId(xs[1..], y, idOf);
    }
  }

  /** Removing distributes over concatenation: the kept elements stay in
      their order. */
  lemma {:induction false} RemoveByIdAppend<T>(a: seq<T>, b: seq<T>, id: Id, idOf: T -> Id)
    ensures RemoveById(a + b, id, idOf) == RemoveById(a, id, idOf) + RemoveById(b, id, idOf)
  {
    if a == [] {
      assert a + b == b;
    } else {
      var x, t := a[0], a[1..];
      assert a == [x] + t;
      assert a + b == [x] + (t + b);
      RemoveByIdAppend(t, b, id, idOf);
      RemoveByIdCons(x, t + b, id, idOf);
      RemoveByIdCons(x, t, id, idOf);
      PrependAssoc(x, RemoveById(t, id, idOf), RemoveById(b, id, idOf));
    }
  }

  /** One step of the removal on a sequence with a known head. */
  lemma RemoveByIdCons<T>(x: T, xs: seq<T>, id: Id, idOf: T -> Id)
    ensures RemoveById([x] + xs, id, idOf)
         == (if idOf(x) != id then [x] + RemoveById(xs, id, idOf) else RemoveById(xs, id, idOf))
  {
    assert ([x] + xs)[0] == x;
    assert ([x] + xs)[1..] == xs;
  }

  /** Removing an id nothing carries changes nothing. */
  lemma {:induction false} RemoveAbsentId<T>(xs: seq<T>, id: Id, idOf: T -> Id)
    requires forall i :: 0 <= i < |xs| ==> idOf(xs[i]) != id
    ensures RemoveById(xs, id, idOf) == xs
  {
    if xs != [] {
      RemoveAbsentId(xs[1..], id, idOf);
      assert xs == [xs[0]] + xs[1..];
    }
  }

  /** Removing twice is removing once. */
  lemma RemoveByIdIdempotent<T>(xs: seq<T>, id: Id, idOf: T -> Id)
    ensures RemoveById(RemoveById(xs, id, idOf), id, idOf) == RemoveById(xs, id, idOf)
  {
    RemoveAbsentId(RemoveById(xs, id, idOf), id, idOf);
  }

  // ----- Laws of the reducer -----

  /** ADD_EXPENSE appends at the end and keeps the earlier entries. */
  lemma AddExpenseAppends(s: AppState, e: Expense)
    ensures var t := Reduce(s, AddExpense(e));
      |t.expenses| == |s.expenses| + 1 && t.expenses[..|s.expenses|] == s.expenses && t.expenses[|s.expenses|] == e
  {
    assert (s.expenses + [e])[..|s.expenses|] == s.expenses;
  }

  /** UPDATE_EXPENSE replaces exactly the entries with the payload's id, in
      place, and is a no-op when no entry has that id. */
  lemma UpdateExpenseReplaces(s: AppState, e: Expense)
    ensures var t := Reduce(s, UpdateExpense(e));
      |t.expenses| == |s.expenses| &&
      (forall i :: 0 <= i < |s.expenses| ==>
        (s.expenses[i].id == e.id ==> t.expenses[i] == e) &&
        (s.expenses[i].id != e.id ==> t.expenses[i] == s.expenses[i]))
    ensures (forall i :: 0 <= i < |s.expenses| ==> s.expenses[i].id != e.id) ==> Reduce(s, UpdateExpense(e)) == s
  {
    if forall i :: 0 <= i < |s.expenses| ==> s.expenses[i].id != e.id {
      ReplaceAbsentId(s.expenses, e, ExpenseId);
    }
  }

  /** DELETE_EXPENSE drops every entry with the id and nothing else. */
  lemma DeleteExpenseFilters(s: AppState, id: Id)
    ensures var t := Reduce(s, DeleteExpense(id));
      (forall e :: e in t.expenses <==> e in s.expenses && e.id != id) &&
      multiset(t.expenses) <= multiset(s.expenses)
  {
    var t := Reduce(s, DeleteExpense(id));
    RemoveByIdKeeps(s.expenses, id, ExpenseId);
    forall e | e in t.expenses ensures e in s.expenses && e.id != id {
      assert e in multiset(t.expenses);
    }
  }

  /** Deleting an expense twice is deleting it once. */
  lemma DeleteExpenseIdempotent(s: AppState, id: Id)
    ensures Reduce(Reduce(s, DeleteExpense(id)), DeleteExpense(id)) == Reduce(s, DeleteExpense(id))
  {
    RemoveByIdIdempotent(s.expenses, id, ExpenseId);
  }

  /** Deleting an id no expense has changes nothing. */
  lemma DeleteAbsentExpense(s: AppState, id: Id)
    requires forall i :: 0 <= i < |s.expenses| ==> s.expenses[i].id != id
    ensures Reduce(s, DeleteExpense(id)) == s
  {
    RemoveAbsentId(s.expenses, id, ExpenseId);
  }

  /** ADD_GROUP appends at the end and keeps the earlier groups. */
  lemma AddGroupAppends(s: AppState, g: Group)
    ensures var t := Reduce(s, AddGroup(g));
      |t.groups| == |s.groups| + 1 && t.groups[..|s.groups|] == s.groups && t.groups[|s.groups|] == g
  {
    assert (s.groups + [g])[..|s.groups|] == s.groups;
  }

  /** UPDATE_GROUP replaces exactly the groups with the payload's id, in
      place, and is a no-op when no group has that id. */
  lemma UpdateGroupReplaces(s: AppState, g: Group)
    ensures var t := Reduce(s, UpdateGroup(g));
      |t.groups| == |s.groups| &&
      (forall i :: 0 <= i < |s.groups| ==>
        (s.groups[i].id == g.id ==> t.groups[i] == g) &&
        (s.groups[i].id != g.id ==> t.groups[i] == s.groups[i]))
    ensures (forall i :: 0 <= i < |s.groups| ==> s.groups[i].id != g.id) ==> Reduce(s, UpdateGroup(g)) == s
  {
    if forall i :: 0 <= i < |s.groups| ==> s.groups[i].id != g.id {
      ReplaceAbsentId(s.groups, g, GroupId);
    }
  }

  /** DELETE_GROUP drops every group with the id and nothing else. */
  lemma DeleteGroupFilters(s: AppState, id: Id)
    ensures var t := Reduce(s, DeleteGroup(id));
      (forall x :: x in t.groups <==> x in s.groups && x.id != id) &&
      multiset(t.groups) <= multiset(s.groups)
  {
    var t := Reduce(s, DeleteGroup(id));
    RemoveByIdKeeps(s.groups, id, GroupId);
    forall x | x in t.groups ensures x in s.groups && x.id != id {
      assert x in multiset(t.groups);
    }
  }

  /** Deleting a group twice is deleting it once. */
  lemma DeleteGroupIdempotent(s: AppState, id: Id)
    ensures Reduce(Reduce(s, DeleteGroup(id)), DeleteGroup(id)) == Reduce(s, DeleteGroup(id))
  {
    RemoveByIdIdempotent(s.groups, id, GroupId);
  }

  /** Deleting an id no group has changes nothing. */
  lemma DeleteAbsentGroup(s: AppState, id: Id)
    requires forall i :: 0 <= i < |s.groups| ==> s.groups[i].id != id
    ensures Reduce(s, DeleteGroup(id)) == s
  {
    RemoveAbsentId(s.groups, id, GroupId);
  }

  /** An action the reducer does not know returns the state as it was. */
  lemma UnrecognisedIsIdentity(s: AppState, tag: string)
    ensures Reduce(s, Unrecognised(tag)) == s
  {
  }

  /** Each SET action for the app's data stores its payload as given. */
  lemma SetDataActionsStore(s: AppState, es: seq<Expense>, gs: seq<Group>, bs: seq<Budget>, ins: seq<Insight>)
    ensures Reduce(s, SetExpenses(es)).expenses == es
    ensures Reduce(s, SetGroups(gs)).groups == gs
    ensures Reduce(s, SetBudgets(bs)).budgets == bs
    ensures Reduce(s, SetInsights(ins)).insights == ins
  {
  }

  /** SET_USER, SET_LOADING and SET_ERROR store their payload as given. */
  lemma SetSessionActionsStore(s: AppState, u: Option<User>, l: bool, err: Option<string>)
    ensures Reduce(s, SetUser(u)).user == u
    ensures Reduce(s, SetLoading(l)).loading == l
    ensures Reduce(s, SetError(err)).error == err
  {
  }
}
