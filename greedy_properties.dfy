/** What the greedy reduction over the notes 100, 50, 20 and 10 guarantees:
    every note is a real denomination, the largest come first, a positive
    amount fails exactly when it is not a multiple of ten, and no other way
    of paying the amount uses fewer notes. */
module GreedyProperties {
  import opened Wrappers
  import opened Exceptions
  import opened WithdrawalResults
  import opened WithdrawalService

  /** Every note is one of the available denominations. */
  ghost predicate Legal(notes: seq<real>)
  {
    forall i :: 0 <= i < |notes| ==> notes[i] in AvailableNotes
  }

  /** Largest notes first. */
  ghost predicate NonIncreasing(notes: seq<real>)
  {
    forall i, j :: 0 <= i <= j < |notes| ==> notes[i] >= notes[j]
  }

  /** A table of denominations listed strictly from largest to smallest. */
  ghost predicate Descending(table: seq<real>)
  {
    forall i, j :: 0 <= i < j < |table| ==> table[i] > table[j]
  }

  /** The amount is a whole number of tens. */
  predicate MultipleOfTen(amount: real)
  {
    (amount / 10.0).Floor as real * 10.0 == amount
  }

  /** Over a descending table, the greedy reduction pays only notes of the
      table, in non-increasing order. */
  lemma {:induction false} ReduceOrdered(remaining: real, table: seq<real>)
    requires PositiveTable(table) && Descending(table)
    ensures forall i :: 0 <= i < |Reduce(remaining, table).notes| ==>
      Reduce(remaining, table).notes[i] in table
    ensures NonIncreasing(Reduce(remaining, table).notes)
    decreases |table|
  {
    if table != [] {
      var first := Drain(table[0], remaining);
      var rest := Reduce(first.remaining, table[1..]);
      ReduceOrdered(first.remaining, table[1..]);
      var notes := first.notes + rest.notes;
      assert Reduce(remaining, table).notes == notes;
      forall i | 0 <= i < |rest.notes|
        ensures rest.notes[i] < table[0] && rest.notes[i] in table
      {
        var k :| 0 <= k < |table[1..]| && table[1..][k] == rest.notes[i];
        assert table[k + 1] == rest.notes[i];
      }
      forall i, j | 0 <= i <= j < |notes|
        ensures notes[i] >= notes[j]
      {
        if j >= |first.notes| && i >= |first.notes| {
          assert notes[i] == rest.notes[i - |first.notes|];
          assert notes[j] == rest.notes[j - |first.notes|];
        } else if j >= |first.notes| {
          assert notes[j] == rest.notes[j - |first.notes|];
        }
      }
    }
  }

  lemma AvailableNotesDescending()
    ensures Descending(AvailableNotes)
  {
  }

  /** A successful withdrawal pays only available denominations, largest
      first. */
  lemma WithdrawalNotesOrdered(amount: Option<real>)
    requires WithdrawalOutcome(amount).Success?
    ensures Legal(WithdrawalOutcome(amount).value)
    ensures NonIncreasing(WithdrawalOutcome(amount).value)
  {
    if amount.Some? && amount.value > 0.0 {
      AvailableNotesPositive();
      AvailableNotesDescending();
      ReduceOrdered(amount.value, AvailableNotes);
    }
  }

  /** The value of a list of notes, counted in tens. */
  function Tens(notes: seq<real>): int
  {
    if notes == [] then 0 else (notes[0] / 10.0).Floor + Tens(notes[1..])
  }

  /** Legal notes always add up to a whole, non-negative number of tens. */
  lemma {:induction false} LegalSumInTens(notes: seq<real>)
    requires Legal(notes)
    ensures Sum(notes) == 10.0 * Tens(notes) as real
    ensures Tens(notes) >= 0
  {
    if notes != [] {
      assert Legal(notes[1..]) by {
        forall i | 0 <= i < |notes[1..]| ensures notes[1..][i] in AvailableNotes {
          assert notes[1..][i] == notes[i + 1];
        }
      }
      LegalSumInTens(notes[1..]);
      NoteInTens(notes[0]);
    }
  }

  /** Each available note is a whole, positive number of tens. */
  lemma NoteInTens(note: real)
    requires note in AvailableNotes
    ensures note == 10.0 * (note / 10.0).Floor as real
    ensures (note / 10.0).Floor >= 1
  {
  }

  /** A positive amount fails (with NoteUnavailable, carrying the amount as
      requested) exactly when it is not a whole number of tens: 1, 5, 15,
      125 and 10.5 fail, 10, 30 and 280 do not. */
  lemma FailsExactlyOffMultiplesOfTen(amount: real)
    requires amount > 0.0
    ensures WithdrawalOutcome(Some(amount)).Failure? <==> !MultipleOfTen(amount)
    ensures WithdrawalOutcome(Some(amount)).Failure? ==>
      WithdrawalOutcome(Some(amount)).error == NoteUnavailable(amount)
  {
    AvailableNotesPositive();
    AvailableNotesDescending();
    var split := Reduce(amount, AvailableNotes);
    ReduceConserves(amount, AvailableNotes);
    ReduceOrdered(amount, AvailableNotes);
    LegalSumInTens(split.notes);
    TensPlusLeftover(Tens(split.notes), split.remaining);
  }

  /** A whole number of tens plus a leftover below ten is a multiple of ten
      exactly when the leftover is zero. */
  lemma TensPlusLeftover(tens: int, left: real)
    requires 0.0 <= left < 10.0
    ensures MultipleOfTen(10.0 * tens as real + left) <==> left == 0.0
  {
    var amount := 10.0 * tens as real + left;
    assert amount / 10.0 == tens as real + left / 10.0;
    assert (amount / 10.0).Floor == tens;
  }


  /** The fewest notes that pay `j` tens when `j` is below ten, i.e. for
      0, 10, ..., 90: 10 = 10, 20 = 20, 30 = 20 + 10, 40 = 20 + 20, 50 = 50,
      60 = 50 + 10, 70 = 50 + 20, 80 = 50 + 20 + 10, 90 = 50 + 20 + 20. */
  function FewestBelowHundred(j: nat): nat
    requires j < 10
  {
    [0, 1, 1, 2, 2, 1, 2, 2, 3, 3][j]
  }

  /** The fewest notes that pay `k` tens: hundreds for all whole hundreds,
      then the best way to pay the rest. */
  function FewestNotes(k: nat): nat
  {
    k / 10 + FewestBelowHundred(k % 10)
  }

  /** Adding one more note (of 1, 2, 5 or 10 tens) raises the fewest count
      by at most one. */
  lemma OneMoreNote(k: nat, tens: nat)
    requires tens == 1 || tens == 2 || tens == 5 || tens == 10
    ensures FewestNotes(k + tens) <= FewestNotes(k) + 1
  {
    var q, j := k / 10, k % 10;
    if j + tens < 10 {
      assert (k + tens) / 10 == q && (k + tens) % 10 == j + tens;
    } else {
      assert (k + tens) / 10 == q + 1 && (k + tens) % 10 == j + tens - 10;
    }
  }

  /** No list of legal notes is shorter than the fewest count for the tens
      it pays. */
  lemma {:induction false} FewestNotesIsLowerBound(notes: seq<real>)
    requires Legal(notes)
    ensures Tens(notes) >= 0 && FewestNotes(Tens(notes)) <= |notes|
  {
    LegalSumInTens(notes);
    if notes != [] {
      var rest := notes[1..];
      assert Legal(rest) by {
        forall i | 0 <= i < |rest| ensures rest[i] in AvailableNotes {
          assert rest[i] == notes[i + 1];
        }
      }
      FewestNotesIsLowerBound(rest);
      var tens := (notes[0] / 10.0).Floor;
      assert notes[0] in AvailableNotes;
      assert tens == 10 || tens == 5 || tens == 2 || tens == 1;
      OneMoreNote(Tens(rest), tens);
    }
  }

  /** Draining `n` copies of a note plus a leftover smaller than the note
      pays exactly those `n` notes and leaves exactly that leftover. */
  lemma {:induction false} DrainExact(note: real, n: nat, left: real)
    requires note >= 1.0 && 0.0 <= left < note
    ensures Drain(note, n as real * note + left) == Split(Repeat(note, n), left)
  {
    if n > 0 {
      OneCopyLess(n, note);
      DrainExact(note, n - 1, left);
    }
  }

  lemma OneCopyLess(n: nat, note: real)
    requires n > 0
    ensures n as real * note - note == (n - 1) as real * note
  {
  }

  /** The greedy breakdown of `k` tens in closed form: all the hundreds,
      then at most one 50, at most two 20s and at most one 10. */
  function GreedyShape(k: nat): seq<real>
  {
    var j := k % 10;
    Repeat(100.0, k / 10) + Repeat(50.0, j / 5) + Repeat(20.0, j % 5 / 2) + Repeat(10.0, j % 5 % 2)
  }

  /** Reducing `t` tens (t below 5) over 20 and 10. */
  lemma ReduceTwentiesTens(t: nat)
    requires t < 5
    ensures Reduce((10 * t) as real, [20.0, 10.0]) == Split(Repeat(20.0, t / 2) + Repeat(10.0, t % 2), 0.0)
  {
    assert (10 * t) as real == (t / 2) as real * 20.0 + (10 * (t % 2)) as real;
    DrainExact(20.0, t / 2, (10 * (t % 2)) as real);
    assert (10 * (t % 2)) as real == (t % 2) as real * 10.0 + 0.0;
    DrainExact(10.0, t % 2, 0.0);
    assert [20.0, 10.0][1..] == [10.0] && [10.0][1..] == [];
    assert Repeat(10.0, t % 2) + [] == Repeat(10.0, t % 2);
  }

  /** Reducing `j` tens (j below 10) over 50, 20 and 10. */
  lemma ReduceBelowHundred(j: nat)
    requires j < 10
    ensures Reduce((10 * j) as real, [50.0, 20.0, 10.0])
      == Split(Repeat(50.0, j / 5) + Repeat(20.0, j % 5 / 2) + Repeat(10.0, j % 5 % 2), 0.0)
  {
    assert (10 * j) as real == (j / 5) as real * 50.0 + (10 * (j % 5)) as real;
    DrainExact(50.0, j / 5, (10 * (j % 5)) as real);
    assert [50.0, 20.0, 10.0][1..] == [20.0, 10.0];
    ReduceTwentiesTens(j % 5);
  }

  /** The greedy reduction of a whole number of tens leaves nothing over,
      pays `GreedyShape`, and uses exactly `FewestNotes` notes. */
  lemma GreedyReducesTens(k: nat)
    ensures Reduce(10.0 * k as real, AvailableNotes) == Split(GreedyShape(k), 0.0)
    ensures |GreedyShape(k)| == FewestNotes(k)
  {
    AvailableNotesPositive();
    var q, j := k / 10, k % 10;
    assert 10.0 * k as real == q as real * 100.0 + (10 * j) as real;
    DrainExact(100.0, q, (10 * j) as real);
    assert AvailableNotes[1..] == [50.0, 20.0, 10.0];
    ReduceBelowHundred(j);
    var small := Repeat(50.0, j / 5) + Repeat(20.0, j % 5 / 2) + Repeat(10.0, j % 5 % 2);
    assert Repeat(100.0, q) + small == GreedyShape(k);
    GreedyBelowHundredIsFewest(j);
  }

  /** Below a hundred, greedily taking a 50, then 20s, then a 10 is the
      fewest-notes table. */
  lemma GreedyBelowHundredIsFewest(j: nat)
    requires j < 10
    ensures j / 5 + j % 5 / 2 + j % 5 % 2 == FewestBelowHundred(j)
  {
  }

  /** For the canonical denominations 100, 50, 20 and 10 the greedy answer is
      optimal: no list of legal notes paying the same amount is shorter. */
  lemma GreedyIsMinimal(amount: real, other: seq<real>)
    requires WithdrawalOutcome(Some(amount)).Success?
    requires Legal(other) && Sum(other) == amount
    ensures |WithdrawalOutcome(Some(amount)).value| <= |other|
  {
    if amount != 0.0 {
      var k := PaidInTens(amount);
      LegalSumInTens(other);
      assert k == Tens(other);
      FewestNotesIsLowerBound(other);
      GreedyReducesTens(k);
    }
  }


  /** A positive whole number of tens is paid as `GreedyShape`, with the
      fewest possible notes. */
  lemma WithdrawalOfTens(k: nat)
    requires k > 0
    ensures WithdrawalOutcome(Some(10.0 * k as real)) == Success(GreedyShape(k))
    ensures |GreedyShape(k)| == FewestNotes(k)
  {
    GreedyReducesTens(k);
  }

  lemma {:induction false} MultisetRepeat(note: real, n: nat)
    ensures forall x :: multiset(Repeat(note, n))[x] == if x == note then n else 0
  {
    if n > 0 {
      MultisetRepeat(note, n - 1);
    }
  }

  /** Each inner loop stops once less than its note is left, so below the
      hundreds a withdrawal holds at most one 50, two 20s and one 10. */
  lemma AtMostOneFiftyTwoTwentiesOneTen(amount: Option<real>)
    requires WithdrawalOutcome(amount).Success?
    ensures multiset(WithdrawalOutcome(amount).value)[50.0] <= 1
    ensures multiset(WithdrawalOutcome(amount).value)[20.0] <= 2
    ensures multiset(WithdrawalOutcome(amount).value)[10.0] <= 1
  {
    if amount.Some? && amount.value > 0.0 {
      var k := PaidInTens(amount.value);
      GreedyShapeCounts(k);
    }
  }

  /** A successful positive withdrawal is a whole number `k` of tens, paid
      as `GreedyShape(k)`. */
  lemma PaidInTens(amount: real) returns (k: nat)
    requires amount > 0.0 && WithdrawalOutcome(Some(amount)).Success?
    ensures amount == 10.0 * k as real
    ensures WithdrawalOutcome(Some(amount)).value == GreedyShape(k)
  {
    FailsExactlyOffMultiplesOfTen(amount);
    k := (amount / 10.0).Floor;
    WithdrawalOfTens(k);
  }

  /** How many notes of each kind `GreedyShape` holds. */
  lemma GreedyShapeCounts(k: nat)
    ensures multiset(GreedyShape(k))[100.0] == k / 10
    ensures multiset(GreedyShape(k))[50.0] == k % 10 / 5 <= 1
    ensures multiset(GreedyShape(k))[20.0] == k % 10 % 5 / 2 <= 2
    ensures multiset(GreedyShape(k))[10.0] == k % 10 % 5 % 2 <= 1
  {
    var j := k % 10;
    MultisetOfRuns(k / 10, j / 5, j % 5 / 2, j % 5 % 2);
  }

  /** The notes in four runs of 100s, 50s, 20s and 10s, counted. */
  lemma MultisetOfRuns(hundreds: nat, fifties: nat, twenties: nat, tens: nat)
    ensures var runs := Repeat(100.0, hundreds) + Repeat(50.0, fifties)
                        + Repeat(20.0, twenties) + Repeat(10.0, tens);
      multiset(runs)[100.0] == hundreds && multiset(runs)[50.0] == fifties &&
      multiset(runs)[20.0] == twenties && multiset(runs)[10.0] == tens
  {
    var a, b, c, d := Repeat(100.0, hundreds), Repeat(50.0, fifties), Repeat(20.0, twenties), Repeat(10.0, tens);
    assert multiset(a + b + c + d) == multiset(a) + multiset(b) + multiset(c) + multiset(d);
    MultisetRepeat(100.0, hundreds);
    MultisetRepeat(50.0, fifties);
    MultisetRepeat(20.0, twenties);
    MultisetRepeat(10.0, tens);
  }


}
