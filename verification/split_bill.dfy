/** The bill splitter behind the "Split Bill" form: three strategies over a
    total and a participant list, the validation that rejects a split, and
    the editors for the participant rows. Money is cents; a percentage is
    hundredths of a percent, the step of the form's percentage input. */
module SplitBill {
  import opened Common
  import opened Money
  import opened Types

  /** One row of the split form. On input `share` is ignored by an equal
      split, is cents for a custom split and hundredths of a percent for a
      percentage split; on output it is always cents. */
  datatype SplitParticipant = SplitParticipant(name: string, share: int)

  /** Why a split was rejected. The first two are the silent early return
      of the handler, the last two the two alerts. */
  datatype SplitError =
    | InvalidTotal
    | InsufficientParticipants
    | SharesMismatch(expected: Cents, actual: Cents)
    | PercentagesMismatch(expected: Cents, actual: Cents)

  /** 100% in hundredths of a percent. */
  const HundredPercent: int := 10000

  /** A computed sum may differ from the total by at most this many cents (0.01). */
  const PercentageTolerance: int := 1

  function Share(p: SplitParticipant): int { p.share }

  function ShareSum(ps: seq<SplitParticipant>): int { SumOf(ps, Share) }

  /** `round2(total * pct / 100)` in cents, for a total in cents and a
      percentage in hundredths of a percent. */
  function PercentOf(total: Cents, pct: int): Cents
  {
    RoundDiv(total * pct, HundredPercent)
  }

  /** Everyone pays `total / n` rounded to the cent. */
  function EqualShares(total: Cents, n: nat, ps: seq<SplitParticipant>): (r: seq<SplitParticipant>)
    requires n > 0
    ensures |r| == |ps|
    ensures forall i :: 0 <= i < |r| ==> r[i].name == ps[i].name && r[i].share == RoundDiv(total, n)
  {
    if ps == [] then [] else [ps[0].(share := RoundDiv(total, n))] + EqualShares(total, n, ps[1..])
  }

  /** Every participant's percentage turned into money. */
  function PercentageShares(total: Cents, ps: seq<SplitParticipant>): (r: seq<SplitParticipant>)
    ensures |r| == |ps|
    ensures forall i :: 0 <= i < |r| ==> r[i].name == ps[i].name && r[i].share == PercentOf(total, ps[i].share)
  {
    if ps == [] then [] else [ps[0].(share := PercentOf(total, ps[0].share))] + PercentageShares(total, ps[1..])
  }

  /** The split handler. `total` is the parsed total (None when it does not
      parse as a number). */
  function Split(total: Option<Cents>, ps: seq<SplitParticipant>, strategy: SplitType): (r: Result<seq<SplitParticipant>, SplitError>)
    ensures (total.None? || total.value <= 0) ==> r == Err(InvalidTotal)
    ensures total.Some? && total.value > 0 && |ps| < 2 ==> r == Err(InsufficientParticipants)
    ensures r.Ok? ==> total.Some? && total.value > 0 && |ps| >= 2
    ensures r.Ok? ==> |r.value| == |ps| && forall i :: 0 <= i < |ps| ==> r.value[i].name == ps[i].name
    ensures total.Some? && total.value > 0 && |ps| >= 2 ==>
      match strategy
      case Equal =>
        r.Ok? && forall i :: 0 <= i < |ps| ==> r.value[i].share == RoundDiv(total.value, |ps|)
      case Custom =>
        (r.Ok? <==> ShareSum(ps) == total.value) &&
        (r.Ok? ==> r.value == ps) &&
        (r.Err? ==> r.error == SharesMismatch(total.value, ShareSum(ps)))
      case Percentage =>
        (r.Ok? <==> Abs(ShareSum(PercentageShares(total.value, ps)) - total.value) <= PercentageTolerance) &&
        (r.Ok? ==> forall i :: 0 <= i < |ps| ==> r.value[i].share == PercentOf(total.value, ps[i].share))
  {
    if total.None? || total.value <= 0 then Err(InvalidTotal)
    else if |ps| < 2 then Err(InsufficientParticipants)
    else
      var amount := total.value;
      match strategy
      case Equal => Ok(EqualShares(amount, |ps|, ps))
      case Custom =>
        var sum := ShareSum(ps);
        if sum != amount then Err(SharesMismatch(amount, sum)) else Ok(ps)
      case Percentage => PercentageSplit(amount, ps)
  }

  /** The percentage branch: the money shares, unless their sum misses the
      total by more than the tolerance. */
  function PercentageSplit(amount: Cents, ps: seq<SplitParticipant>): (r: Result<seq<SplitParticipant>, SplitError>)
    ensures r.Ok? <==> Abs(ShareSum(PercentageShares(amount, ps)) - amount) <= PercentageTolerance
    ensures r.Ok? ==> |r.value| == |ps|
    ensures r.Ok? ==> forall i :: 0 <= i < |ps| ==>
      r.value[i].name == ps[i].name && r.value[i].share == PercentOf(amount, ps[i].share)
    ensures r.Err? ==> r.error == PercentagesMismatch(amount, ShareSum(PercentageShares(amount, ps)))
  {
    var split := PercentageShares(amount, ps);
    var sum := ShareSum(split);
    if Abs(sum - amount) > PercentageTolerance then Err(PercentagesMismatch(amount, sum)) else Ok(split)
  }

  /** The equal split does not hand out leftover cents: its shares add up to
      the total give or take half a cent per participant, and no closer. */
  lemma {:induction false} EqualSplitDrift(total: Cents, ps: seq<SplitParticipant>)
    requires total > 0 && |ps| >= 2
    ensures Split(Some(total), ps, Equal).Ok?
    ensures 2 * Abs(ShareSum(Split(Some(total), ps, Equal).value) - total) <= |ps|
  {
    var n := |ps|;
    var q := RoundDiv(total, n);
    EqualSharesSum(total, n, ps);
    assert ShareSum(EqualShares(total, n, ps)) == n * q;
  }

  lemma {:induction false} EqualSharesSum(total: Cents, n: nat, ps: seq<SplitParticipant>)
    requires n > 0
    ensures ShareSum(EqualShares(total, n, ps)) == |ps| * RoundDiv(total, n)
  {
    if ps != [] {
      EqualSharesSum(total, n, ps[1..]);
      assert EqualShares(total, n, ps)[1..] == EqualShares(total, n, ps[1..]);
    }
  }

  /** Splitting $100.00 three ways gives $33.33 each: a cent goes missing. */
  lemma EqualSplitLosesACent()
    ensures var ps := [SplitParticipant("a", 0), SplitParticipant("b", 0), SplitParticipant("c", 0)];
      var r := Split(Some(10000), ps, Equal);
      r.Ok? && ShareSum(r.value) == 9999
  {
    var ps := [SplitParticipant("a", 0), SplitParticipant("b", 0), SplitParticipant("c", 0)];
    EqualSplitDrift(10000, ps);
    EqualSharesSum(10000, 3, ps);
    assert RoundDiv(10000, 3) == 3333;
  }

  /** When the percentages add up to exactly 100%, the money shares add up
      to the total give or take half a cent per participant. */
  lemma {:induction false} PercentageDrift(total: Cents, ps: seq<SplitParticipant>)
    requires ShareSum(ps) == HundredPercent
    ensures 2 * Abs(ShareSum(PercentageShares(total, ps)) - total) <= |ps|
  {
    PercentageDriftScaled(total, ps);
    var s := ShareSum(PercentageShares(total, ps));
    assert -|ps| * HundredPercent <= 2 * (s - total) * HundredPercent <= |ps| * HundredPercent;
  }

  lemma {:induction false} PercentageDriftScaled(total: Cents, ps: seq<SplitParticipant>)
    ensures var e := 2 * (ShareSum(PercentageShares(total, ps)) * HundredPercent - total * ShareSum(ps));
      -|ps| * HundredPercent <= e <= |ps| * HundredPercent
  {
    if ps != [] {
      var D := HundredPercent;
      var p, P := ps[0].share, ShareSum(ps[1..]);
      var x := PercentOf(total, p);
      var S := ShareSum(PercentageShares(total, ps[1..]));
      PercentageDriftScaled(total, ps[1..]);
      assert PercentageShares(total, ps)[1..] == PercentageShares(total, ps[1..]);
      assert ShareSum(PercentageShares(total, ps)) == x + S;
      assert ShareSum(ps) == p + P;
      DriftStep(D, total, p, P, x, S, |ps[1..]|);
    }
  }

  /** One more participant adds at most one rounding error to the drift. */
  lemma DriftStep(D: int, total: int, p: int, P: int, x: int, S: int, n: nat)
    requires D > 0
    requires -D <= 2 * (total * p - x * D) <= D
    requires -(n * D) <= 2 * (S * D - total * P) <= n * D
    ensures -(n + 1) * D <= 2 * ((x + S) * D - total * (p + P)) <= (n + 1) * D
  {
    assert (x + S) * D == x * D + S * D;
    assert total * (p + P) == total * p + total * P;
    assert (n + 1) * D == n * D + D;
  }

  /** In exact cent arithmetic, two or three participants whose percentages
      add up to 100% are always accepted: half a cent of drift per
      participant stays within the cent. */
  lemma SmallPercentageAccepted(total: Cents, ps: seq<SplitParticipant>)
    requires total > 0 && 2 <= |ps| <= 3 && ShareSum(ps) == HundredPercent
    ensures Split(Some(total), ps, Percentage).Ok?
  {
    PercentageDrift(total, ps);
  }

  /** From four participants on, percentages adding up to exactly 100% can
      be rejected: $1.02 split four ways at 25% rounds every share up to
      $0.26, and the $1.04 sum is off by two cents. */
  lemma FourWayPercentageRejected()
    ensures ShareSum(Uniform(4, 2500)) == HundredPercent
    ensures Split(Some(102), Uniform(4, 2500), Percentage) == Err(PercentagesMismatch(102, 104))
  {
    UniformSum(4, 2500);
    FourWayShares();
    PercentageRejects(102, Uniform(4, 2500));
  }

  /** Each 25% share of $1.02 rounds up to $0.26. */
  lemma FourWayShares()
    ensures ShareSum(PercentageShares(102, Uniform(4, 2500))) == 104
  {
    var shares := PercentageShares(102, Uniform(4, 2500));
    assert PercentOf(102, 2500) == 26;
    assert shares == Uniform(4, 26);
    UniformSum(4, 26);
  }

  /** The same happens with more participants: $3.00 split eight ways at
      12.5% rounds every share up to $0.38, and the $3.04 sum is off by four
      cents. */
  lemma EightWayPercentageRejected()
    ensures ShareSum(Uniform(8, 1250)) == HundredPercent
    ensures Split(Some(300), Uniform(8, 1250), Percentage) == Err(PercentagesMismatch(300, 304))
  {
    UniformSum(8, 1250);
    EightWayShares();
    PercentageRejects(300, Uniform(8, 1250));
  }

  /** A percentage split whose money shares miss the total by more than a
      cent is rejected with their sum. */
  lemma PercentageRejects(total: Cents, ps: seq<SplitParticipant>)
    requires total > 0 && |ps| >= 2
    requires Abs(ShareSum(PercentageShares(total, ps)) - total) > PercentageTolerance
    ensures Split(Some(total), ps, Percentage) == Err(PercentagesMismatch(total, ShareSum(PercentageShares(total, ps))))
  {
    var r := PercentageSplit(total, ps);
    assert r == Err(PercentagesMismatch(total, ShareSum(PercentageShares(total, ps))));
    SplitPercentageBranch(total, ps);
  }

  lemma SplitPercentageBranch(total: Cents, ps: seq<SplitParticipant>)
    requires total > 0 && |ps| >= 2
    ensures Split(Some(total), ps, Percentage) == PercentageSplit(total, ps)
  {
  }

  /** Each 12.5% share of $3.00 rounds up to $0.38. */
  lemma EightWayShares()
    ensures ShareSum(PercentageShares(300, Uniform(8, 1250))) == 304
  {
    var shares := PercentageShares(300, Uniform(8, 1250));
    assert PercentOf(300, 1250) == 38;
    assert shares == Uniform(8, 38);
    UniformSum(8, 38);
  }

  /** `n` rows named "p", each with the same share. */
  function Uniform(n: nat, share: int): seq<SplitParticipant>
  {
    seq(n, i => SplitParticipant("p", share))
  }

  lemma {:induction false} UniformSum(n: nat, share: int)
    ensures ShareSum(Uniform(n, share)) == n * share
  {
    if n > 0 {
      assert Uniform(n, share)[1..] == Uniform(n - 1, share);
      UniformSum(n - 1, share);
    }
  }

  // ----- The form: participant rows and the last shown result -----

  /** The split form's state; `result` is the breakdown on display. */
  datatype SplitForm = SplitForm(
    total: Option<Cents>,
    participants: seq<SplitParticipant>,
    splitType: SplitType,
    result: Option<seq<SplitParticipant>>)

  /** A fresh form: two blank rows, equal split, nothing shown. */
  const InitialForm: SplitForm :=
    SplitForm(None, [SplitParticipant("", 0), SplitParticipant("", 0)], Equal, None)

  /** Submitting the form shows the split, or keeps the previous result when
      the split is rejected. */
  function Submit(f: SplitForm): (g: SplitForm)
    ensures Split(f.total, f.participants, f.splitType).Err? ==> g == f
    ensures Split(f.total, f.participants, f.splitType).Ok? ==>
      g.result == Some(Split(f.total, f.participants, f.splitType).value)
    ensures g.total == f.total && g.participants == f.participants && g.splitType == f.splitType
  {
    match Split(f.total, f.participants, f.splitType)
    case Ok(split) => f.(result := Some(split))
    case Err(_) => f
  }

  /** An edit to one field of one row: a new name, or the parsed share
      (None when the text does not parse as a number). */
  datatype Edit = EditName(value: string) | EditShare(parsed: Option<int>)

  /** Edits row `i`; an unparsable share is stored as 0. */
  function ChangeParticipant(ps: seq<SplitParticipant>, i: int, edit: Edit): (r: seq<SplitParticipant>)
    requires 0 <= i < |ps|
    ensures |r| == |ps|
    ensures forall j :: 0 <= j < |ps| && j != i ==> r[j] == ps[j]
    ensures edit.EditName? ==> r[i] == SplitParticipant(edit.value, ps[i].share)
    ensures edit.EditShare? && edit.parsed.Some? ==> r[i] == SplitParticipant(ps[i].name, edit.parsed.value)
    ensures edit.EditShare? && edit.parsed.None? ==> r[i] == SplitParticipant(ps[i].name, 0)
  {
    match edit
    case EditName(v) => ps[i := ps[i].(name := v)]
    case EditShare(parsed) =>
      ps[i := ps[i].(share := match parsed case Some(v) => v case None => 0)]
  }

  /** Appends one blank row. */
  function AddParticipant(ps: seq<SplitParticipant>): (r: seq<SplitParticipant>)
    ensures |r| == |ps| + 1 && r[..|ps|] == ps && r[|ps|] == SplitParticipant("", 0)
  {
    ps + [SplitParticipant("", 0)]
  }

  /** Drops the row at index `i`; any other index leaves the rows as they are. */
  function RemoveParticipant(ps: seq<SplitParticipant>, i: int): (r: seq<SplitParticipant>)
    ensures 0 <= i < |ps| ==> |r| == |ps| - 1
    ensures 0 <= i < |ps| ==> forall j :: 0 <= j < |r| ==> r[j] == (if j < i then ps[j] else ps[j + 1])
    ensures !(0 <= i < |ps|) ==> r == ps
  {
    if 0 <= i < |ps| then ps[..i] + ps[i + 1..] else ps
  }

  /** Removing the row just added restores the rows. */
  lemma RemoveUndoesAdd(ps: seq<SplitParticipant>)
    ensures RemoveParticipant(AddParticipant(ps), |ps|) == ps
  {
    assert AddParticipant(ps)[..|ps|] == ps;
  }
}
