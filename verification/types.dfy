/** The shapes of the tracker's records (expenses, groups, members, budgets,
    the signed-in user and the canned insights). Amounts are cents. */
module Types {
  import opened Common

  type Id = string

  /** The nine expense categories. */
  datatype Category =
    | Food | Transport | Entertainment | Bills | Shopping
    | Health | Travel | Education | OtherCategory

  /** How a bill is divided among its participants. */
  datatype SplitType = Equal | Custom | Percentage

  /** A month index as `Date.getMonth()` returns it: January is 0. */
  type Month = m: int | 0 <= m < 12

  /** A point in time, reduced to what the core reads from it: the
      millisecond timestamp (`getTime()`), the local month index
      (`getMonth()`) and the local calendar day key (`yyyy-MM-dd`),
      the last kept opaque. */
  datatype Date = Date(time: int, month: Month, day: string)

  /** One member's share of a group expense. */
  datatype Participant = Participant(userId: Id, amount: int, settled: bool)

  datatype Expense = Expense(
    id: Id,
    title: string,
    amount: int,
    category: Category,
    date: Date,
    description: Option<string>,
    tags: seq<string>,
    receipt: Option<string>,
    userId: Id,
    groupId: Option<Id>,
    splitType: Option<SplitType>,
    participants: Option<seq<Participant>>)

  datatype Member = Member(id: Id, name: string, email: string, avatar: Option<string>, balance: int)

  /** A group; its two timestamps are milliseconds. */
  datatype Group = Group(
    id: Id,
    name: string,
    description: Option<string>,
    members: seq<Member>,
    expenses: seq<Expense>,
    createdAt: int,
    updatedAt: int,
    color: string)

  datatype Period = Monthly | Weekly

  /** A spending budget; `alertThreshold` is a percentage of `amount`. */
  datatype Budget = Budget(
    id: Id,
    category: Category,
    amount: int,
    spent: int,
    period: Period,
    alertThreshold: real)

  datatype Theme = Light | Dark

  datatype Preferences = Preferences(theme: Theme, currency: string, notifications: bool, language: string)

  datatype User = User(id: Id, name: string, email: string, avatar: Option<string>, preferences: Preferences)

  datatype InsightKind = SpendingPattern | BudgetAlert | Suggestion | Prediction

  datatype Priority = Low | Medium | High

  datatype Insight = Insight(
    id: Id,
    kind: InsightKind,
    title: string,
    description: string,
    priority: Priority,
    actionable: bool)

  function ExpenseId(e: Expense): Id { e.id }

  function GroupId(g: Group): Id { g.id }

  function Amount(e: Expense): int { e.amount }
}
