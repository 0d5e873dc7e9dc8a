/** Exactly which charges the aggregation's append-only rows can line up with the time axis. */
module Alignment {
  import opened Upstream
  import opened Rows

  /** A key's amounts in a period, added up. */
  function SumAt(cells: seq<Cell>, key: string, t: nat): real {
    if cells == [] then 0.0
    else
      var x := cells[|cells| - 1];
      SumAt(cells[..|cells| - 1], key, t) + (if x.charge.key == key && x.t == t then x.charge.amount else 0.0)
  }

  /** The same charges for the same periods and keys at other prices. */
  function Repriced(cells: seq<Cell>, price: nat -> real): seq<Cell> {
    seq(|cells|, i requires 0 <= i < |cells| =>
          Cell(cells[i].t, Charge(cells[i].charge.key, price(i), cells[i].charge.unit)))
  }

  /** Every key's row shows its sum in every period. */
  ghost predicate LinesUp(cells: seq<Cell>) {
    forall key, t: nat :: ValueAt(RawRow(cells, key), t) == SumAt(cells, key, t)
  }

  predicate Matches(x: Cell, key: string, t: nat) {
    x.charge.key == key && x.t == t
  }

  lemma {:induction false} NoChargeNoSum(cells: seq<Cell>, key: string, t: nat)
    requires forall i :: 0 <= i < |cells| ==> !Matches(cells[i], key, t)
    ensures SumAt(cells, key, t) == 0.0
  {
    if cells != [] {
      var last := |cells| - 1;
      assert !Matches(cells[last], key, t);
      NoChargeNoSum(cells[..last], key, t);
    }
  }

  lemma {:induction false} SumIsTheCharge(cells: seq<Cell>, key: string, t: nat)
    requires NoKeyRepeats(cells)
    ensures SumAt(cells, key, t) == ChargeAt(cells, key, t)
  {
    if cells != [] {
      var last := |cells| - 1;
      if Matches(cells[last], key, t) {
        NoChargeNoSum(cells[..last], key, t);
      } else {
        SumIsTheCharge(cells[..last], key, t);
      }
    }
  }

  // ----- everything costs one -----

  ghost predicate Ones(cells: seq<Cell>) {
    forall i :: 0 <= i < |cells| ==> cells[i].charge.amount == 1.0
  }

  /** No place in a row holds more than one charge. */
  lemma {:induction false} RowHoldsOneEach(cells: seq<Cell>, key: string)
    requires Ones(cells)
    ensures forall i :: 0 <= i < |RawRow(cells, key)| ==> RawRow(cells, key)[i] <= 1.0
  {
    if cells != [] {
      RowHoldsOneEach(cells[..|cells| - 1], key);
    }
  }

  function CountAt(cells: seq<Cell>, key: string, t: nat): nat {
    if cells == [] then 0
    else CountAt(cells[..|cells| - 1], key, t) + if Matches(cells[|cells| - 1], key, t) then 1 else 0
  }

  lemma {:induction false} SumCountsOnes(cells: seq<Cell>, key: string, t: nat)
    requires Ones(cells)
    ensures SumAt(cells, key, t) == CountAt(cells, key, t) as real
  {
    if cells != [] {
      SumCountsOnes(cells[..|cells| - 1], key, t);
    }
  }

  lemma {:induction false} CountSees(cells: seq<Cell>, key: string, t: nat, i: nat)
    requires i < |cells| && Matches(cells[i], key, t)
    ensures CountAt(cells, key, t) >= 1
    ensures forall j :: i < j < |cells| && Matches(cells[j], key, t) ==> CountAt(cells, key, t) >= 2
  {
    var last := |cells| - 1;
    if i < last {
      CountSees(cells[..last], key, t, i);
      assert forall j :: i < j < last ==> cells[..last][j] == cells[j];
    }
  }

  lemma RepeatBreaksOnes(cells: seq<Cell>)
    requires Ones(cells) && !NoKeyRepeats(cells)
    ensures !LinesUp(cells)
  {
    var i, j :| 0 <= i < j < |cells| && cells[i].t == cells[j].t && cells[i].charge.key == cells[j].charge.key;
    var key, t := cells[i].charge.key, cells[i].t;
    assert Matches(cells[i], key, t) && Matches(cells[j], key, t);
    CountSees(cells, key, t, i);
    SumCountsOnes(cells, key, t);
    RowHoldsOneEach(cells, key);
    assert ValueAt(RawRow(cells, key), t) <= 1.0;
  }

  lemma NoRepeatsLineUp(cells: seq<Cell>, n: nat)
    requires InPeriodOrder(cells, n) && NoKeyRepeats(cells)
    ensures LinesUp(cells)
  {
    forall key, t: nat
      ensures ValueAt(RawRow(cells, key), t) == SumAt(cells, key, t)
    {
      RawRowIsDense(cells, key, n, t);
      SumIsTheCharge(cells, key, t);
    }
  }

  /**
   * Appending instead of adding is right exactly without repeats: charges for given periods and
   * keys line up whatever they cost if and only if no key is charged twice within a period.
   */
  lemma LinesUpIffNoRepeats(cells: seq<Cell>, n: nat)
    requires InPeriodOrder(cells, n)
    ensures (forall price: nat -> real :: LinesUp(Repriced(cells, price))) <==> NoKeyRepeats(cells)
  {
    if NoKeyRepeats(cells) {
      forall price: nat -> real
        ensures LinesUp(Repriced(cells, price))
      {
        NoRepeatsLineUp(Repriced(cells, price), n);
      }
    } else {
      var one: nat -> real := _ => 1.0;
      var ones := Repriced(cells, one);
      var i, j :| 0 <= i < j < |cells| && cells[i].t == cells[j].t && cells[i].charge.key == cells[j].charge.key;
      assert ones[i].t == ones[j].t && ones[i].charge.key == ones[j].charge.key;
      RepeatBreaksOnes(ones);
    }
  }
}
