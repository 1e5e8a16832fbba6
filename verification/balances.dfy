/** The group balance engine: every member starts at 0, each participant
    entry of an expense is debited to that participant and the expense's
    full amount is credited to its payer (`userId`). An expense without a
    participant list is skipped.

    The balances live in a plain object, so an id that is not a member's
    gets a fresh key whose value is `undefined`; `undefined - x` and
    `undefined + x` are `NaN`, and `NaN` absorbs every later change. The
    model keeps that behaviour with a number type that has a `NaN`. */
module Balances {
  import opened Common
  import opened Types

  /** A JavaScript number restricted to what balances can hold: cents or NaN. */
  datatype Num = Finite(v: int) | NaN

  function AddNum(n: Num, x: int): (r: Num)
    ensures r.Finite? <==> n.Finite?
    ensures n.Finite? ==> r.v == n.v + x
  {
    match n
    case Finite(v) => Finite(v + x)
    case NaN => NaN
  }

  type Balances = map<Id, Num>

  /** Adds `x` to the balance at `id`; a missing key reads as `undefined`. */
  function Adjust(b: Balances, id: Id, x: int): (r: Balances)
    ensures r.Keys == b.Keys + {id}
    ensures forall k :: k in b && k != id ==> r[k] == b[k]
    ensures id in b ==> r[id] == AddNum(b[id], x)
    ensures id !in b ==> r[id] == NaN
  {
    b[id := if id in b then AddNum(b[id], x) else NaN]
  }

  /** Every member id at 0. */
  function Initial(members: seq<Member>): (r: Balances)
    ensures r.Keys == MemberIds(members)
    ensures forall k :: k in r ==> r[k] == Finite(0)
  {
    map m | m in MemberIds(members) :: Finite(0)
  }

  function MemberIds(members: seq<Member>): set<Id>
  {
    set i | 0 <= i < |members| :: members[i].id
  }

  /** Debits each participant entry, in order. */
  function DebitAll(b: Balances, ps: seq<Participant>): Balances
    decreases ps
  {
    if ps == [] then b else DebitAll(Adjust(b, ps[0].userId, -ps[0].amount), ps[1..])
  }

  /** One expense: debit its participants, then credit its payer. */
  function ApplyExpense(b: Balances, e: Expense): Balances
  {
    match e.participants
    case None => b
    case Some(ps) => Adjust(DebitAll(b, ps), e.userId, e.amount)
  }

  function ApplyAll(b: Balances, es: seq<Expense>): Balances
    decreases es
  {
    if es == [] then b else ApplyAll(ApplyExpense(b, es[0]), es[1..])
  }

  /** `calculateBalances(group)`: every member has a balance, and it is what
      the member paid minus what it owes. */
  function CalculateBalances(g: Group): (r: Balances)
    ensures forall id :: id in MemberIds(g.members) ==>
      id in r && r[id] == Finite(Paid(id, g.expenses) - Owed(id, g.expenses))
  {
    var b := Initial(g.members);
    assert forall id :: id in MemberIds(g.members) ==>
      id in ApplyAll(b, g.expenses) && ApplyAll(b, g.expenses)[id] == Finite(Paid(id, g.expenses) - Owed(id, g.expenses))
    by {
      forall id | id in MemberIds(g.members)
        ensures id in ApplyAll(b, g.expenses)
        ensures ApplyAll(b, g.expenses)[id] == Finite(Paid(id, g.expenses) - Owed(id, g.expenses))
      {
        ApplyAllReference(b, g.expenses, id);
      }
    }
    ApplyAll(b, g.expenses)
  }

  // ----- Reference definitions -----

  /** Ids an expense touches: its participants and payer, when it has a participant list. */
  ghost predicate Touches(e: Expense, id: Id)
  {
    e.participants.Some? &&
    (e.userId == id || exists j :: 0 <= j < |e.participants.value| && e.participants.value[j].userId == id)
  }

  /** Every id an expense with participants names is a member's. */
  ghost predicate AllKnown(ids: set<Id>, es: seq<Expense>)
  {
    forall i, id :: 0 <= i < |es| && Touches(es[i], id) ==> id in ids
  }

  /** What `id` owes in one list of participant entries. */
  function OwedIn(id: Id, ps: seq<Participant>): int
  {
    if ps == [] then 0 else (if ps[0].userId == id then ps[0].amount else 0) + OwedIn(id, ps[1..])
  }

  /** Total paid by `id` over the expenses that have a participant list. */
  function Paid(id: Id, es: seq<Expense>): int
  {
    if es == [] then 0
    else (if es[0].participants.Some? && es[0].userId == id then es[0].amount else 0) + Paid(id, es[1..])
  }

  /** Total owed by `id` over the expenses that have a participant list. */
  function Owed(id: Id, es: seq<Expense>): int
  {
    if es == [] then 0
    else (match es[0].participants case Some(ps) => OwedIn(id, ps) case None => 0) + Owed(id, es[1..])
  }

  function AmountOf(p: Participant): int { p.amount }

  /** An expense whose participant entries add up to its amount. */
  predicate Reconciles(e: Expense)
  {
    e.participants.Some? ==> SumOf(e.participants.value, AmountOf) == e.amount
  }

  // ----- Properties -----

  /** Every member gets a key; other keys appear only for ids the expenses name. */
  lemma {:induction false} BalanceKeys(g: Group)
    ensures MemberIds(g.members) <= CalculateBalances(g).Keys
    ensures forall id :: id in CalculateBalances(g) && id !in MemberIds(g.members) ==>
      exists i :: 0 <= i < |g.expenses| && Touches(g.expenses[i], id)
  {
    ApplyAllKeys(Initial(g.members), g.expenses);
  }

  lemma {:induction false} DebitAllKeys(b: Balances, ps: seq<Participant>)
    ensures b.Keys <= DebitAll(b, ps).Keys
    ensures forall id :: id in DebitAll(b, ps) && id !in b ==>
      exists j :: 0 <= j < |ps| && ps[j].userId == id
    decreases ps
  {
    if ps != [] {
      var b' := Adjust(b, ps[0].userId, -ps[0].amount);
      DebitAllKeys(b', ps[1..]);
      forall id | id in DebitAll(b, ps) && id !in b
        ensures exists j :: 0 <= j < |ps| && ps[j].userId == id
      {
        if id !in b' {
          var j :| 0 <= j < |ps[1..]| && ps[1..][j].userId == id;
          assert ps[j + 1].userId == id;
        } else {
          assert ps[0].userId == id;
        }
      }
    }
  }

  lemma {:induction false} ApplyAllKeys(b: Balances, es: seq<Expense>)
    ensures b.Keys <= ApplyAll(b, es).Keys
    ensures forall id :: id in ApplyAll(b, es) && id !in b ==>
      exists i :: 0 <= i < |es| && Touches(es[i], id)
    decreases es
  {
    if es != [] {
      var e := es[0];
      var b' := ApplyExpense(b, e);
      if e.participants.Some? {
        DebitAllKeys(b, e.participants.value);
      }
      ApplyAllKeys(b', es[1..]);
      forall id | id in ApplyAll(b, es) && id !in b
        ensures exists i :: 0 <= i < |es| && Touches(es[i], id)
      {
        if id !in b' {
          var i :| 0 <= i < |es[1..]| && Touches(es[1..][i], id);
          assert Touches(es[i + 1], id);
        } else {
          assert Touches(es[0], id);
        }
      }
    }
  }

  /** A member no expense touches keeps the balance of 0 it started with. */
  lemma UntouchedMemberIsZero(g: Group, id: Id)
    requires id in MemberIds(g.members)
    requires forall i :: 0 <= i < |g.expenses| ==> !Touches(g.expenses[i], id)
    ensures id in CalculateBalances(g) && CalculateBalances(g)[id] == Finite(0)
  {
    ApplyAllUntouched(Initial(g.members), g.expenses, id);
  }

  lemma {:induction false} DebitAllUntouched(b: Balances, ps: seq<Participant>, id: Id)
    requires id in b
    requires forall j :: 0 <= j < |ps| ==> ps[j].userId != id
    ensures id in DebitAll(b, ps) && DebitAll(b, ps)[id] == b[id]
    decreases ps
  {
    if ps != [] {
      DebitAllUntouched(Adjust(b, ps[0].userId, -ps[0].amount), ps[1..], id);
    }
  }

  lemma {:induction false} ApplyAllUntouched(b: Balances, es: seq<Expense>, id: Id)
    requires id in b
    requires forall i :: 0 <= i < |es| ==> !Touches(es[i], id)
    ensures id in ApplyAll(b, es) && ApplyAll(b, es)[id] == b[id]
    decreases es
  {
    if es != [] {
      if es[0].participants.Some? {
        DebitAllUntouched(b, es[0].participants.value, id);
      }
      ApplyAllUntouched(ApplyExpense(b, es[0]), es[1..], id);
    }
  }

  /** An id that an expense names but that is no member's ends as NaN. */
  lemma UnknownIdIsNaN(g: Group, i: int, id: Id)
    requires 0 <= i < |g.expenses| && Touches(g.expenses[i], id)
    requires id !in MemberIds(g.members)
    ensures id in CalculateBalances(g) && CalculateBalances(g)[id] == NaN
  {
    NaNAfterTouch(Initial(g.members), g.expenses, i, id);
  }

  lemma {:induction false} DebitAllKeepsNaN(b: Balances, ps: seq<Participant>, id: Id)
    requires id in b && b[id] == NaN
    ensures id in DebitAll(b, ps) && DebitAll(b, ps)[id] == NaN
    decreases ps
  {
    if ps != [] {
      DebitAllKeepsNaN(Adjust(b, ps[0].userId, -ps[0].amount), ps[1..], id);
    }
  }

  lemma {:induction false} DebitAllNaNOnUnknown(b: Balances, ps: seq<Participant>, j: int, id: Id)
    requires 0 <= j < |ps| && ps[j].userId == id
    requires id !in b || b[id] == NaN
    ensures id in DebitAll(b, ps) && DebitAll(b, ps)[id] == NaN
    decreases ps
  {
    var b' := Adjust(b, ps[0].userId, -ps[0].amount);
    if j == 0 {
      DebitAllKeepsNaN(b', ps[1..], id);
    } else {
      DebitAllNaNOnUnknown(b', ps[1..], j - 1, id);
    }
  }

  lemma {:induction false} ApplyAllKeepsNaN(b: Balances, es: seq<Expense>, id: Id)
    requires id in b && b[id] == NaN
    ensures id in ApplyAll(b, es) && ApplyAll(b, es)[id] == NaN
    decreases es
  {
    if es != [] {
      if es[0].participants.Some? {
        DebitAllKeepsNaN(b, es[0].participants.value, id);
      }
      ApplyAllKeepsNaN(ApplyExpense(b, es[0]), es[1..], id);
    }
  }

  lemma {:induction false} NaNAfterTouch(b: Balances, es: seq<Expense>, i: int, id: Id)
    requires 0 <= i < |es| && Touches(es[i], id)
    requires id !in b || b[id] == NaN
    ensures id in ApplyAll(b, es) && ApplyAll(b, es)[id] == NaN
    decreases es
  {
    var e := es[0];
    var b' := ApplyExpense(b, e);
    if i == 0 {
      var ps := e.participants.value;
      var d := DebitAll(b, ps);
      if exists j :: 0 <= j < |ps| && ps[j].userId == id {
        var j :| 0 <= j < |ps| && ps[j].userId == id;
        DebitAllNaNOnUnknown(b, ps, j, id);
      } else {
        assert e.userId == id;
        DebitAllUntouched2(b, ps, id);
      }
      assert id in b' && b'[id] == NaN;
      ApplyAllKeepsNaN(b', es[1..], id);
    } else {
      if e.participants.Some? {
        if id in b {
          DebitAllKeepsNaN(b, e.participants.value, id);
        } else {
          DebitAllAbsent(b, e.participants.value, id);
        }
      }
      assert id !in b' || b'[id] == NaN;
      NaNAfterTouch(b', es[1..], i - 1, id);
    }
  }

  /** An id the entries do not name keeps its (possibly missing) key. */
  lemma {:induction false} DebitAllUntouched2(b: Balances, ps: seq<Participant>, id: Id)
    requires forall j :: 0 <= j < |ps| ==> ps[j].userId != id
    ensures (id in DebitAll(b, ps)) == (id in b)
    ensures id in b ==> DebitAll(b, ps)[id] == b[id]
    decreases ps
  {
    if ps != [] {
      DebitAllUntouched2(Adjust(b, ps[0].userId, -ps[0].amount), ps[1..], id);
    }
  }

  lemma DebitAllAbsent(b: Balances, ps: seq<Participant>, id: Id)
    requires id !in b
    ensures id !in DebitAll(b, ps) || DebitAll(b, ps)[id] == NaN
    decreases ps
  {
    if exists j :: 0 <= j < |ps| && ps[j].userId == id {
      var j :| 0 <= j < |ps| && ps[j].userId == id;
      DebitAllNaNOnUnknown(b, ps, j, id);
    } else {
      DebitAllUntouched2(b, ps, id);
    }
  }

  /** A member's balance is what it paid minus what it owes, whatever
      other ids the expenses name. */
  lemma BalanceIsPaidMinusOwed(g: Group, id: Id)
    requires id in MemberIds(g.members)
    ensures id in CalculateBalances(g)
    ensures CalculateBalances(g)[id] == Finite(Paid(id, g.expenses) - Owed(id, g.expenses))
  {
    ApplyAllReference(Initial(g.members), g.expenses, id);
  }

  /** The key set `ks` stays the key set and every value stays finite. */
  ghost predicate Closed(b: Balances, ks: set<Id>)
  {
    b.Keys == ks && forall k :: k in b ==> b[k].Finite?
  }

  lemma {:induction false} DebitAllReference(b: Balances, ps: seq<Participant>, id: Id)
    requires id in b && b[id].Finite?
    ensures id in DebitAll(b, ps)
    ensures DebitAll(b, ps)[id] == Finite(b[id].v - OwedIn(id, ps))
    decreases ps
  {
    if ps != [] {
      DebitAllReference(Adjust(b, ps[0].userId, -ps[0].amount), ps[1..], id);
    }
  }

  lemma {:induction false} ApplyAllReference(b: Balances, es: seq<Expense>, id: Id)
    requires id in b && b[id].Finite?
    ensures id in ApplyAll(b, es)
    ensures ApplyAll(b, es)[id] == Finite(b[id].v + Paid(id, es) - Owed(id, es))
    decreases es
  {
    if es != [] {
      var e := es[0];
      if e.participants.Some? {
        DebitAllReference(b, e.participants.value, id);
      }
      ApplyAllReference(ApplyExpense(b, e), es[1..], id);
    }
  }

  /** An expense without a participant list changes no balance. */
  lemma SkipsExpensesWithoutParticipants(b: Balances, e: Expense)
    requires e.participants.None?
    ensures ApplyExpense(b, e) == b
  {
  }

  // ----- Zero sum -----

  /** A balance's number, with NaN counted as 0. */
  function Val(n: Num): int
  {
    match n case Finite(v) => v case NaN => 0
  }

  /** Sum of the finite balances over a key set. */
  ghost function Total(b: Balances, ks: set<Id>): int
    requires ks <= b.Keys
    decreases ks
  {
    if ks == {} then 0
    else
      var k := Pick(ks);
      Val(b[k]) + Total(b, ks - {k})
  }

  ghost function Pick(ks: set<Id>): Id
    requires ks != {}
  {
    var k :| k in ks; k
  }

  lemma {:induction false} TotalRemove(b: Balances, ks: set<Id>, k: Id)
    requires ks <= b.Keys && k in ks
    ensures Total(b, ks) == Val(b[k]) + Total(b, ks - {k})
    decreases ks
  {
    var p := Pick(ks);
    if p != k {
      TotalRemove(b, ks - {p}, k);
      TotalRemove(b, ks - {k}, p);
      assert ks - {p} - {k} == ks - {k} - {p};
    }
  }

  lemma {:induction false} TotalAgree(b: Balances, c: Balances, ks: set<Id>)
    requires ks <= b.Keys && ks <= c.Keys
    requires forall k :: k in ks ==> Val(b[k]) == Val(c[k])
    ensures Total(b, ks) == Total(c, ks)
    decreases ks
  {
    if ks != {} {
      TotalAgree(b, c, ks - {Pick(ks)});
    }
  }

  /** Adding `x` to one finite balance adds `x` to the total. */
  lemma TotalAdjust(b: Balances, ks: set<Id>, id: Id, x: int)
    requires ks == b.Keys && id in ks && b[id].Finite?
    ensures Total(Adjust(b, id, x), ks) == Total(b, ks) + x
  {
    var c := Adjust(b, id, x);
    TotalRemove(b, ks, id);
    TotalRemove(c, ks, id);
    TotalAgree(b, c, ks - {id});
  }

  lemma {:induction false} DebitAllTotal(b: Balances, ps: seq<Participant>)
    requires Closed(b, b.Keys)
    requires forall j :: 0 <= j < |ps| ==> ps[j].userId in b
    ensures Closed(DebitAll(b, ps), b.Keys)
    ensures Total(DebitAll(b, ps), b.Keys) == Total(b, b.Keys) - SumOf(ps, AmountOf)
    decreases ps
  {
    if ps != [] {
      var b' := Adjust(b, ps[0].userId, -ps[0].amount);
      TotalAdjust(b, b.Keys, ps[0].userId, -ps[0].amount);
      assert b'.Keys == b.Keys;
      DebitAllTotal(b', ps[1..]);
    }
  }

  lemma {:induction false} ApplyAllTotal(b: Balances, es: seq<Expense>)
    requires Closed(b, b.Keys)
    requires AllKnown(b.Keys, es)
    requires forall i :: 0 <= i < |es| ==> Reconciles(es[i])
    ensures Closed(ApplyAll(b, es), b.Keys)
    ensures Total(ApplyAll(b, es), b.Keys) == Total(b, b.Keys)
    decreases es
  {
    if es != [] {
      var e := es[0];
      var b' := ApplyExpense(b, e);
      if e.participants.Some? {
        var ps := e.participants.value;
        forall j | 0 <= j < |ps| ensures ps[j].userId in b {
          assert Touches(es[0], ps[j].userId);
        }
        assert Touches(es[0], e.userId);
        DebitAllTotal(b, ps);
        var d := DebitAll(b, ps);
        TotalAdjust(d, b.Keys, e.userId, e.amount);
      }
      assert b'.Keys == b.Keys;
      assert AllKnown(b.Keys, es[1..]) by {
        forall i, k | 0 <= i < |es[1..]| && Touches(es[1..][i], k) ensures k in b.Keys {
          assert Touches(es[i + 1], k);
        }
      }
      ApplyAllTotal(b', es[1..]);
    }
  }

  lemma {:induction false} TotalZero(b: Balances, ks: set<Id>)
    requires ks <= b.Keys && forall k :: k in ks ==> b[k] == Finite(0)
    ensures Total(b, ks) == 0
    decreases ks
  {
    if ks != {} {
      TotalZero(b, ks - {Pick(ks)});
    }
  }

  /** When every id an expense names is a member's and every expense's
      entries add up to its amount, the balances are all numbers and add
      up to zero. */
  lemma BalancesSumToZero(g: Group)
    requires AllKnown(MemberIds(g.members), g.expenses)
    requires forall i :: 0 <= i < |g.expenses| ==> Reconciles(g.expenses[i])
    ensures CalculateBalances(g).Keys == MemberIds(g.members)
    ensures forall k :: k in CalculateBalances(g) ==> CalculateBalances(g)[k].Finite?
    ensures Total(CalculateBalances(g), MemberIds(g.members)) == 0
  {
    var b := Initial(g.members);
    TotalZero(b, b.Keys);
    ApplyAllTotal(b, g.expenses);
  }
}
