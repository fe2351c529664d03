/** The withdrawal calculation engine
    (backend/Application/Services/WithdrawalService.cs).

    Amounts are exact reals, standing in for C#'s `decimal` without its range
    limits. Each loop of the service is given twice: as a function that says
    what it computes (`Drain`, `Reduce`, `NotesFor`, `WithdrawalOutcome`) and
    as the method that runs it step by step, proved to agree. */
module WithdrawalService {
  import opened Wrappers
  import opened Exceptions
  import opened WithdrawalResults

  /** The note denominations, largest first. A constant: no call can change
      it, so equal inputs always give equal outputs. */
  const AvailableNotes: seq<real> := [100.0, 50.0, 20.0, 10.0]

  /** Notes paid out so far, and the amount still left to pay. */
  datatype Split = Split(notes: seq<real>, remaining: real)

  /** `n` copies of the same note. */
  function Repeat(note: real, n: nat): (r: seq<real>)
    ensures |r| == n
    ensures forall i :: 0 <= i < n ==> r[i] == note
  {
    if n == 0 then [] else [note] + Repeat(note, n - 1)
  }

  /** Every entry of the table is at least 1, so each payout lowers the
      remaining amount's integer part: the loops terminate. */
  ghost predicate PositiveTable(table: seq<real>)
  {
    forall i :: 0 <= i < |table| ==> table[i] >= 1.0
  }

  /** The inner loop `while (remaining >= note)`: pay out `note` as long as
      at least that much is left. It pays only copies of `note`, loses
      nothing, and stops exactly when less than `note` is left. */
  function Drain(note: real, remaining: real): (r: Split)
    requires note >= 1.0
    ensures r.notes == Repeat(note, |r.notes|)
    ensures r.remaining < note
    ensures remaining >= 0.0 ==> r.remaining >= 0.0
    decreases remaining.Floor
  {
    if remaining >= note then
      var rest := Drain(note, remaining - note);
      Split([note] + rest.notes, rest.remaining)
    else
      Split([], remaining)
  }

  /** The outer `foreach` over a table of denominations: drain each in turn.
      Every note paid is from the table, nothing is lost, and for a
      non-negative amount what is left is below the table's last entry. */
  function Reduce(remaining: real, table: seq<real>): (r: Split)
    requires PositiveTable(table)
    ensures table != [] && remaining >= 0.0 ==> 0.0 <= r.remaining < table[|table| - 1]
    decreases |table|
  {
    if table == [] then
      Split([], remaining)
    else
      var first := Drain(table[0], remaining);
      var rest := Reduce(first.remaining, table[1..]);
      Split(first.notes + rest.notes, rest.remaining)
  }

  /** One turn of the inner loop: while the current note still fits,
      reducing over the table is paying that note and reducing the rest. */
  lemma ReducePays(remaining: real, table: seq<real>)
    requires PositiveTable(table) && table != [] && remaining >= table[0]
    ensures Reduce(remaining, table).notes == [table[0]] + Reduce(remaining - table[0], table).notes
    ensures Reduce(remaining, table).remaining == Reduce(remaining - table[0], table).remaining
  {
  }

  /** Leaving the inner loop: once the current note no longer fits, reducing
      over the table is reducing over the smaller notes after it. */
  lemma ReduceSkips(remaining: real, table: seq<real>)
    requires PositiveTable(table) && table != [] && remaining < table[0]
    ensures Reduce(remaining, table) == Reduce(remaining, table[1..])
  {
  }

  /** Draining loses nothing: the notes paid plus what is left is the
      amount drained. */
  lemma {:induction false} DrainConserves(note: real, remaining: real)
    requires note >= 1.0
    ensures Sum(Drain(note, remaining).notes) + Drain(note, remaining).remaining == remaining
    decreases remaining.Floor
  {
    if remaining >= note {
      var rest := Drain(note, remaining - note);
      DrainConserves(note, remaining - note);
      assert ([note] + rest.notes)[1..] == rest.notes;
    }
  }

  /** Reducing loses nothing: the notes paid plus what is left is the
      amount reduced. */
  lemma {:induction false} ReduceConserves(remaining: real, table: seq<real>)
    requires PositiveTable(table)
    ensures Sum(Reduce(remaining, table).notes) + Reduce(remaining, table).remaining == remaining
    decreases |table|
  {
    if table != [] {
      var first := Drain(table[0], remaining);
      var rest := Reduce(first.remaining, table[1..]);
      DrainConserves(table[0], remaining);
      ReduceConserves(first.remaining, table[1..]);
      SumAppend(first.notes, rest.notes);
    }
  }

  lemma AppendAssociates(a: seq<real>, b: seq<real>, c: seq<real>)
    ensures a + (b + c) == (a + b) + c
  {
  }

  lemma AvailableNotesPositive()
    ensures PositiveTable(AvailableNotes)
  {
  }

  /** What `CalculateNotes` computes: the greedy reduction over the table,
      failing with the ORIGINAL amount when anything is left over. */
  function NotesFor(amount: real): (r: Result<seq<real>, WithdrawalError>)
    ensures r.Failure? ==> r.error == NoteUnavailable(amount) && amount > 0.0
    ensures r.Success? && amount >= 0.0 ==> Sum(r.value) == amount
  {
    AvailableNotesPositive();
    var split := Reduce(amount, AvailableNotes);
    ReduceConserves(amount, AvailableNotes);
    if split.remaining > 0.0 then Failure(NoteUnavailable(amount)) else Success(split.notes)
  }

  /** `CalculateNotes`: nested loops appending to a list and lowering a
      running remainder, then the remainder check. */
  method CalculateNotes(amount: real) returns (r: Result<seq<real>, WithdrawalError>)
    ensures r == NotesFor(amount)
  {
    AvailableNotesPositive();
    ghost var target := Reduce(amount, AvailableNotes);
    var notes: seq<real> := [];
    var remaining := amount;
    for i := 0 to |AvailableNotes|
      invariant notes + Reduce(remaining, AvailableNotes[i..]).notes == target.notes
      invariant Reduce(remaining, AvailableNotes[i..]).remaining == target.remaining
    {
      var note := AvailableNotes[i];
      ghost var pending := AvailableNotes[i..];
      while remaining >= note
        invariant notes + Reduce(remaining, pending).notes == target.notes
        invariant Reduce(remaining, pending).remaining == target.remaining
        decreases remaining.Floor
      {
        ReducePays(remaining, pending);
        AppendAssociates(notes, [note], Reduce(remaining - note, pending).notes);
        notes := notes + [note];
        remaining := remaining - note;
      }
      ReduceSkips(remaining, pending);
      assert pending[1..] == AvailableNotes[i + 1..];
    }
    assert AvailableNotes[|AvailableNotes|..] == [];
    assert notes + [] == notes;
    if remaining > 0.0 {
      r := Failure(NoteUnavailable(amount));
    } else {
      r := Success(notes);
    }
  }

  /** What `WithdrawAsync` computes. An absent or zero amount dispenses
      nothing (the zero test comes before the sign test), a negative amount
      is an invalid argument, anything else goes to the greedy calculation.
      Every failure carries the amount exactly as requested. */
  function WithdrawalOutcome(amount: Option<real>): (r: Result<seq<real>, WithdrawalError>)
    ensures amount.None? || amount.value == 0.0 ==> r == Success([])
    ensures (r.Failure? && r.error.InvalidArgument?) <==> (amount.Some? && amount.value < 0.0)
    ensures r.Failure? ==> amount.Some?
    ensures r.Failure? && r.error.InvalidArgument? ==> r.error.amount == amount.value
    ensures r.Failure? && r.error.NoteUnavailable? ==> r.error.requestedAmount == amount.value
    ensures r.Success? ==> Sum(r.value) == if amount.None? then 0.0 else amount.value
  {
    if amount.None? || amount.value == 0.0 then Success([])
    else if amount.value < 0.0 then Failure(InvalidArgument(amount.value))
    else NotesFor(amount.value)
  }

  /** `WithdrawAsync`, without the `Task` wrapper: on success a fresh result
      object holding the notes; otherwise the failure. */
  method Withdraw(amount: Option<real>) returns (r: Result<WithdrawalResult, WithdrawalError>)
    ensures WithdrawalOutcome(amount).Failure? ==> r == Failure(WithdrawalOutcome(amount).error)
    ensures WithdrawalOutcome(amount).Success? ==>
      r.Success? && fresh(r.value) && r.value.notes == WithdrawalOutcome(amount).value
  {
    if amount.None? || amount.value == 0.0 {
      var empty := new WithdrawalResult();
      return Success(empty);
    }
    var requestedAmount := amount.value;
    if requestedAmount < 0.0 {
      return Failure(InvalidArgument(requestedAmount));
    }
    var notes := CalculateNotes(requestedAmount);
    match notes {
      case Failure(e) =>
        r := Failure(e);
      case Success(ns) =>
        var result := new WithdrawalResult();
        result.SetNotes(ns);
        r := Success(result);
    }
  }
}
