/** The result of a withdrawal (backend/Domain/Models/WithdrawalResult.cs):
    a settable list of notes, with the total and the count always derived
    from that list and never stored. */
module WithdrawalResults {

  /** The sum of a list of note values, as LINQ's `Sum()` computes it. */
  function Sum(notes: seq<real>): (total: real)
    ensures notes == [] ==> total == 0.0
    ensures |notes| == 1 ==> total == notes[0]
  {
    if notes == [] then 0.0 else notes[0] + Sum(notes[1..])
  }

  /** Notes of non-negative value never total a negative amount. */
  lemma {:induction false} SumNonNegative(notes: seq<real>)
    requires forall i :: 0 <= i < |notes| ==> notes[i] >= 0.0
    ensures Sum(notes) >= 0.0
  {
    if notes != [] {
      SumNonNegative(notes[1..]);
    }
  }

  /** Summing distributes over concatenation, so appending one note adds
      exactly its value to the total. */
  lemma {:induction false} SumAppend(a: seq<real>, b: seq<real>)
    ensures Sum(a + b) == Sum(a) + Sum(b)
  {
    if a == [] {
      assert a + b == b;
    } else {
      assert (a + b)[1..] == a[1..] + b;
      SumAppend(a[1..], b);
    }
  }

  class WithdrawalResult {
    /** The dispensed notes, in dispensing order. */
    var notes: seq<real>

    /** A fresh result dispenses nothing. */
    constructor ()
      ensures notes == []
      ensures TotalAmount() == 0.0 && NoteCount() == 0
    {
      notes := [];
    }

    /** Total amount withdrawn, always computed from the notes. The body,
        `Sum(notes)`, is visible to callers and is the full definition; the
        ensures only spells out the empty case. */
    function TotalAmount(): (total: real)
      reads this
      ensures notes == [] ==> total == 0.0
    {
      Sum(notes)
    }

    /** Number of notes dispensed, always computed from the notes. */
    function NoteCount(): (count: nat)
      reads this
      ensures count == 0 <==> notes == []
    {
      |notes|
    }

    /** The `Notes` setter: nothing else is stored, so the derived total and
        count follow the new list at once. */
    method SetNotes(newNotes: seq<real>)
      modifies this
      ensures notes == newNotes
      ensures TotalAmount() == Sum(newNotes) && NoteCount() == |newNotes|
    {
      notes := newNotes;
    }
  }
}
