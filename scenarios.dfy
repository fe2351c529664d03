/** Concrete withdrawals, as the service's unit tests exercise them, derived
    from the general lemmas. */
module WithdrawalScenarios {
  import opened Wrappers
  import opened Exceptions
  import opened WithdrawalResults
  import opened WithdrawalService
  import opened GreedyProperties

  /** 30 is paid as a 20 and a 10. */
  lemma ThirtyPaid()
    ensures WithdrawalOutcome(Some(30.0)) == Success([20.0, 10.0])
  {
    WithdrawalOfTens(3);
    assert GreedyShape(3) == [] + [] + [20.0] + [10.0] == [20.0, 10.0];
  }

  /** 80 is paid as a 50, a 20 and a 10. */
  lemma EightyPaid()
    ensures WithdrawalOutcome(Some(80.0)) == Success([50.0, 20.0, 10.0])
  {
    WithdrawalOfTens(8);
    assert GreedyShape(8) == [] + [50.0] + [20.0] + [10.0] == [50.0, 20.0, 10.0];
  }

  /** 90 is paid as a 50 and two 20s. */
  lemma NinetyPaid()
    ensures WithdrawalOutcome(Some(90.0)) == Success([50.0, 20.0, 20.0])
  {
    WithdrawalOfTens(9);
    assert GreedyShape(9) == [] + [50.0] + [20.0, 20.0] + [] == [50.0, 20.0, 20.0];
  }

  /** 100 is paid as a single note. */
  lemma HundredPaid()
    ensures WithdrawalOutcome(Some(100.0)) == Success([100.0])
  {
    WithdrawalOfTens(10);
    assert GreedyShape(10) == [100.0] + [] + [] + [] == [100.0];
  }

  /** 170 is paid as 100, 50 and 20. */
  lemma HundredSeventyPaid()
    ensures WithdrawalOutcome(Some(170.0)) == Success([100.0, 50.0, 20.0])
  {
    WithdrawalOfTens(17);
    assert GreedyShape(17) == [100.0] + [50.0] + [20.0] + [] == [100.0, 50.0, 20.0];
  }

  /** 280 is paid largest first: two 100s, a 50, a 20 and a 10. */
  lemma TwoHundredEightyPaid()
    ensures WithdrawalOutcome(Some(280.0)) == Success([100.0, 100.0, 50.0, 20.0, 10.0])
  {
    assert 28 / 10 == 2 && 28 % 10 / 5 == 1 && 28 % 10 % 5 / 2 == 1 && 28 % 10 % 5 % 2 == 1;
    assert Repeat(100.0, 2) == [100.0, 100.0];
    WithdrawalOfTens(28);
    assert GreedyShape(28) == [100.0, 100.0] + [50.0] + [20.0] + [10.0]
      == [100.0, 100.0, 50.0, 20.0, 10.0];
  }

  /** A thousand is paid as ten hundreds. */
  lemma ThousandIsTenHundreds()
    ensures WithdrawalOutcome(Some(1000.0)) == Success(Repeat(100.0, 10))
  {
    WithdrawalOfTens(100);
    assert Repeat(50.0, 0) + Repeat(20.0, 0) + Repeat(10.0, 0) == [];
    assert Repeat(100.0, 10) + [] == Repeat(100.0, 10);
  }

  /** The amounts 10, 20, ..., 200 of the note-count test, and the note
      count it expects for each. */
  const TestedAmounts: seq<real> :=
    [10.0, 20.0, 30.0, 40.0, 50.0, 60.0, 70.0, 80.0, 90.0, 100.0,
     110.0, 120.0, 130.0, 140.0, 150.0, 160.0, 170.0, 180.0, 190.0, 200.0]
  const TestedCounts: seq<nat> := [1, 1, 2, 2, 1, 2, 2, 3, 3, 1, 2, 2, 3, 3, 2, 3, 3, 4, 4, 2]

  /** Each tested amount is paid in full with the note count the test
      expects, which is also the fewest notes that can pay it. */
  lemma TestedNoteCounts()
    ensures |TestedAmounts| == |TestedCounts| == 20
    ensures forall i :: 0 <= i < 20 ==>
      WithdrawalOutcome(Some(TestedAmounts[i])).Success? &&
      Sum(WithdrawalOutcome(Some(TestedAmounts[i])).value) == TestedAmounts[i] &&
      |WithdrawalOutcome(Some(TestedAmounts[i])).value| == TestedCounts[i]
  {
    forall i | 0 <= i < 20
      ensures WithdrawalOutcome(Some(TestedAmounts[i])).Success?
      ensures |WithdrawalOutcome(Some(TestedAmounts[i])).value| == TestedCounts[i]
    {
      assert TestedAmounts[i] == 10.0 * (i + 1) as real;
      assert TestedCounts[i] == FewestNotes(i + 1);
      WithdrawalOfTens(i + 1);
    }
  }

  /** No amount and a zero amount both pay nothing. */
  lemma EmptyRequestsPayNothing()
    ensures WithdrawalOutcome(None) == Success([])
    ensures WithdrawalOutcome(Some(0.0)) == Success([])
    ensures Sum(WithdrawalOutcome(None).value) == 0.0
  {
  }

  /** Amounts that fail, each carrying the amount as requested: the tested
      negative and unpayable amounts, and 10.5, which is not a whole number
      of tens either. */
  lemma UnpayableAmounts()
    ensures WithdrawalOutcome(Some(-130.0)) == Failure(InvalidArgument(-130.0))
    ensures forall a :: a in [-1.0, -10.0, -100.0, -1000.0] ==>
      WithdrawalOutcome(Some(a)) == Failure(InvalidArgument(a))
    ensures forall a :: a in [1.0, 3.0, 5.0, 7.0, 13.0, 15.0, 25.0, 35.0, 125.0, 10.5] ==>
      WithdrawalOutcome(Some(a)) == Failure(NoteUnavailable(a))
  {
    forall a | a in [1.0, 3.0, 5.0, 7.0, 13.0, 15.0, 25.0, 35.0, 125.0, 10.5]
      ensures WithdrawalOutcome(Some(a)) == Failure(NoteUnavailable(a))
    {
      FailsExactlyOffMultiplesOfTen(a);
    }
  }

  /** Greedy is only optimal because the table is 100, 50, 20, 10: over the
      table 4, 3, 1 it pays 6 with three notes where two 3s would do. */
  lemma GreedyNotOptimalForOtherTables()
    ensures PositiveTable([4.0, 3.0, 1.0])
    ensures Reduce(6.0, [4.0, 3.0, 1.0]) == Split([4.0, 1.0, 1.0], 0.0)
    ensures Sum([3.0, 3.0]) == 6.0
  {
    assert 6.0 == 1 as real * 4.0 + 2.0;
    DrainExact(4.0, 1, 2.0);
    assert [4.0, 3.0, 1.0][1..] == [3.0, 1.0];
    assert [3.0, 1.0][1..] == [1.0];
    assert 2.0 == 2 as real * 1.0 + 0.0;
    DrainExact(1.0, 2, 0.0);
  }
}
