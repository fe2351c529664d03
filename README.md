# ATM withdrawal engine, modelled in Dafny

This project models the withdrawal calculation engine of an ATM back end. A
customer asks for an optional decimal amount. The engine either pays it in
notes of 100, 50, 20 and 10, largest first, or rejects it. An absent or
zero amount pays nothing. A negative amount is an invalid argument. An
amount the notes cannot form exactly (5, 125, 10.5) is "note unavailable",
and that failure carries the amount as requested. A successful result holds
the list of notes; its total and its note count are always derived from
that list.

Layout, one module per source unit:

- `wrappers.dfy` (`Wrappers`): `Option` for the nullable amount, `Result` for "notes or failure".
- `exceptions.dfy` (`Exceptions`): `WithdrawalError`, the two domain exceptions as data.
- `withdrawal_result.dfy` (`WithdrawalResults`): `Sum` and the `WithdrawalResult` class.
- `withdrawal_service.dfy` (`WithdrawalService`): the note table, and the greedy reduction twice over. The functions `Drain`, `Reduce`, `NotesFor` and `WithdrawalOutcome` say what is computed. The methods `CalculateNotes` and `Withdraw` compute it with the source's loops and guards, and are proved equal to those functions.
- `greedy_properties.dfy` (`GreedyProperties`): ordering, the exact failure condition, per-note bounds and minimality.
- `scenarios.dfy` (`WithdrawalScenarios`): the unit tests' concrete cases, derived from the general lemmas.

Amounts are Dafny `real`s. They are exact, like C# `decimal`, but without its
range limit. The note table `AvailableNotes` is a `const`. No call can change
it, and every operation is a function of its input or a method proved equal
to one. So the same amount always gives the same notes.

Greedy selection is optimal only because the table is 100, 50, 20, 10.
`GreedyNotOptimalForOtherTables` shows the same reduction over 4, 3, 1
paying 6 with three notes, where two 3s would do.

## Model

| member | source | states |
|---|---|---|
| `WithdrawalService.Drain` | backend/Application/Services/WithdrawalService.cs:62-66 | the inner `while` pays only copies of its note; it stops with less than one note left, and that is never negative when the start was not |
| `WithdrawalService.DrainConserves` | backend/Application/Services/WithdrawalService.cs:62-66 | draining loses nothing: the notes paid plus the remainder equal the amount drained |
| `WithdrawalService.Reduce` | backend/Application/Services/WithdrawalService.cs:60-67 | after the `foreach` over the table, a non-negative amount leaves a remainder in [0, smallest note) |
| `WithdrawalService.ReduceConserves` | backend/Application/Services/WithdrawalService.cs:60-67 | the notes paid by the whole reduction plus its remainder equal the amount |
| `WithdrawalService.NotesFor` | backend/Application/Services/WithdrawalService.cs:54-77 | `CalculateNotes` fails only for a positive amount, and the error is `NoteUnavailable` carrying the original amount; on success with a non-negative amount the notes sum to it |
| `WithdrawalService.CalculateNotes` | backend/Application/Services/WithdrawalService.cs:54-77 | the nested loops that append notes and lower `remaining`, then the remainder check, compute exactly `NotesFor` |
| `WithdrawalService.WithdrawalOutcome` | backend/Application/Services/WithdrawalService.cs:24-45 | an absent or zero amount gives an empty success; the result is `InvalidArgument` exactly for a negative amount; every failure carries the requested amount; a success sums to the amount |
| `WithdrawalService.Withdraw` | backend/Application/Services/WithdrawalService.cs:24-45 | on success it returns a fresh `WithdrawalResult` whose notes are `WithdrawalOutcome`'s; otherwise it returns the same failure |
| `WithdrawalResults.Sum` | backend/Domain/Models/WithdrawalResult.cs:16 | the notes summed first to last: 0 for none, the note itself for one |
| `WithdrawalResults.SumNonNegative` | backend/Domain/Models/WithdrawalResult.cs:16 | notes none of which is negative never total a negative amount |
| `WithdrawalService.AvailableNotes` | backend/Application/Services/WithdrawalService.cs:14 | the constant table 100, 50, 20, 10, largest first, which no call can change |
| `WithdrawalResults.SumAppend` | backend/Domain/Models/WithdrawalResult.cs:16 | the total of concatenated note lists is the sum of their totals |
| `WithdrawalResults.WithdrawalResult.constructor` | backend/Domain/Models/WithdrawalResult.cs:11 | a fresh result has no notes, total 0 and count 0 |
| `WithdrawalResults.WithdrawalResult.TotalAmount` | backend/Domain/Models/WithdrawalResult.cs:16 | the total is computed from the notes and is 0 for an empty list |
| `WithdrawalResults.WithdrawalResult.NoteCount` | backend/Domain/Models/WithdrawalResult.cs:21 | the count is computed from the notes and is 0 exactly when there are none |
| `WithdrawalResults.WithdrawalResult.SetNotes` | backend/Domain/Models/WithdrawalResult.cs:11-21 | assigning `Notes` changes nothing else, and the total and count at once become the sum and length of the new list |
| `GreedyProperties.ReduceOrdered` | backend/Application/Services/WithdrawalService.cs:60-67 | over a descending table, the reduction pays only table notes, in non-increasing order |
| `GreedyProperties.WithdrawalNotesOrdered` | backend/Application/Services/WithdrawalService.cs:60-67 | reading the table at line 14 largest first, the loops make every note of a successful withdrawal 100, 50, 20 or 10, largest first |
| `GreedyProperties.LegalSumInTens` | backend/Application/Services/WithdrawalService.cs:14 | any list of available notes totals a whole, non-negative number of tens |
| `GreedyProperties.FailsExactlyOffMultiplesOfTen` | backend/Application/Services/WithdrawalService.cs:71-74 | a positive amount fails exactly when it is not a multiple of ten, and then with `NoteUnavailable` carrying that amount |
| `GreedyProperties.DrainExact` | backend/Application/Services/WithdrawalService.cs:62-66 | draining `n` notes plus a smaller leftover pays exactly `n` notes and leaves that leftover |
| `GreedyProperties.GreedyReducesTens` | backend/Application/Services/WithdrawalService.cs:60-67 | a whole number of tens reduces to zero remainder, paid as hundreds then at most one 50, two 20s and one 10, with `FewestNotes` notes |
| `GreedyProperties.OneMoreNote` | backend/Application/Services/WithdrawalService.cs:17-18 | one more note of any kind raises the fewest-notes count by at most one |
| `GreedyProperties.FewestNotesIsLowerBound` | backend/Application/Services/WithdrawalService.cs:17-18 | no list of available notes is shorter than the fewest-notes count for the amount it pays |
| `GreedyProperties.GreedyIsMinimal` | backend/Application/Services/WithdrawalService.cs:48-49 | no list of 100s, 50s, 20s and 10s paying the amount has fewer notes than the withdrawal |
| `GreedyProperties.WithdrawalOfTens` | backend/Application/Services/WithdrawalService.cs:41-44 | a positive multiple of ten succeeds with the closed-form breakdown and the fewest notes |
| `GreedyProperties.AtMostOneFiftyTwoTwentiesOneTen` | backend/Application/Services/WithdrawalService.cs:62-66 | a successful withdrawal holds at most one 50, two 20s and one 10 |
| `GreedyProperties.GreedyShapeCounts` | backend/Application/Services/WithdrawalService.cs:60-67 | the greedy breakdown of `k` tens holds `k / 10` hundreds and at most one 50, two 20s and one 10 |
| `GreedyProperties.PaidInTens` | backend/Application/Services/WithdrawalService.cs:71-76 | a positive successful amount is a whole number of tens, paid in the closed-form breakdown |
| `WithdrawalScenarios.ThirtyPaid` | backend/Tests/Application/WithdrawalServiceTests.cs:23-37 | 30 is paid as [20, 10] |
| `WithdrawalScenarios.EightyPaid` | backend/Tests/Application/WithdrawalServiceTests.cs:40-55 | 80 is paid as [50, 20, 10] |
| `WithdrawalScenarios.HundredPaid` | backend/Tests/Application/WithdrawalServiceTests.cs:58-71 | 100 is paid as one note |
| `WithdrawalScenarios.HundredSeventyPaid` | backend/Tests/Application/WithdrawalServiceTests.cs:138-150 | 170 is paid as [100, 50, 20] |
| `WithdrawalScenarios.ThousandIsTenHundreds` | backend/Tests/Application/WithdrawalServiceTests.cs:189-202 | 1000 is paid as ten 100s |
| `WithdrawalScenarios.TwoHundredEightyPaid` | backend/Tests/Application/WithdrawalServiceTests.cs:356-371 | 280 is paid as [100, 100, 50, 20, 10], largest first |
| `WithdrawalScenarios.NinetyPaid` | backend/Tests/Application/WithdrawalServiceTests.cs:325-345 | 90 is paid as [50, 20, 20] |
| `WithdrawalScenarios.TestedNoteCounts` | backend/Tests/Application/WithdrawalServiceTests.cs:324-353 | each of 10, 20, ..., 200 is withdrawn successfully, the notes total the amount, and their count is the one the test expects |
| `WithdrawalScenarios.EmptyRequestsPayNothing` | backend/Tests/Application/WithdrawalServiceTests.cs:156-186 | no amount and a zero amount both succeed with no notes, totalling 0 |
| `WithdrawalScenarios.UnpayableAmounts` | backend/Tests/Application/WithdrawalServiceTests.cs:208-318 | -130, -1, -10, -100 and -1000 fail with `InvalidArgument` carrying that amount; 1, 3, 5, 7, 13, 15, 25, 35 and 125 fail with `NoteUnavailable` carrying that amount; so does 10.5, which the tests do not try |
| `WithdrawalScenarios.GreedyNotOptimalForOtherTables` | backend/Application/Services/WithdrawalService.cs:13-18 | over the table 4, 3, 1 the same reduction pays 6 with three notes, where two would do |

## Left out

- The `Task` wrapper of `WithdrawAsync`: it adds no behaviour, so `Withdraw` is synchronous.
- Exception message texts: they use culture-dependent currency formatting. Only the failure kind and the amount it carries are modelled. So the test that the negative-amount message mentions "negative" is not captured.
- C# `decimal` range, scale and overflow limits, including overflow of `Notes.Sum()`: amounts are unbounded exact reals.
- The capacity of the C# `List<decimal>` and the `int` range of `NoteCount`: a .NET list holds at most about 2.1 billion elements, so for amounts above roughly 2.1e11 the `notes.Add` in `CalculateNotes` would throw `OutOfMemoryException` (an HTTP 500) before the loop ends. The model's sequences are unbounded, so there it succeeds with `k / 10` hundreds for every size.
- `decimal`'s signed zero and trailing-zero scale (`10.00m`): reals compare by value, as `decimal`'s `==` and `<` do.
- The HTTP controller, middleware, DI setup, DTOs, currency configuration and the whole React front end. These are transport and presentation code with no logic of their own; both domain failures map to HTTP 400 there.
- The in-place mutability of `WithdrawalResult.Notes`: in C# it is a `List<decimal>` held by reference, so the list built by `CalculateNotes` becomes the result's list without a copy, and adding to it later changes `TotalAmount` and `NoteCount`. The model holds an immutable sequence that can only be replaced whole (`SetNotes`), so in-place list updates and aliasing of the list are not captured; the service never relies on either.
- `InvalidArgumentException` carries only a message, in which the amount is formatted; the `amount` field of `InvalidArgument` stands for that amount in the message.
- The alternative exception constructors that take a custom message or inner exception: the service never uses them.
