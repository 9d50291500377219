# Embedded-OS practice, modelled in Dafny

This project models the concurrent and interactive programs of the repository and proves what they are for.

| files | program |
|---|---|
| `OrderBook.dfy` | the order a client of the delivery server builds up: counts, restaurant, distance, price, echoed message (`hw3/hw3.c`) |
| `Delivery.dfy`, `DeliverySafety.dfy`, `DeliveryProgress.dfy`, `DeliveryRuns.dfy` | the two-courier server as a step machine over any number of client threads; what every interleaving keeps; who can be blocked; the mutex that is never released (`hw3/hw3.c`) |
| `DeliveryServer.dfy`, `Balance.dfy` | the same server's objects updated in place, one thread's program order, and how evenly it spreads its load (`hw3/hw3.c`) |
| `Search.dfy`, `SignalProtocol.dfy` | the guessing game: which numbers it finds, in how many guesses, and the two processes with their signals (`lab7/guess.c`, `lab7/game.c`) |
| `Account.dfy`, `AccountTotals.dfy`, `ClientTable.dfy` | the shared account, its refinement of an atomic one, the range of final balances, and the table of client slots (`lab6/server.c`) |
| `SegmentDisplay.dfy` | the seven-segment driver and a reader of its segments (`hw1/seg_driver.c`) |
| `OrderMenu.dfy`, `MenuSessions.dfy`, `MenuProgram.dfy` | the ordering menu: its steps, what whole typed sessions come to in plain numbers, and the program's loops in place (`hw1/hw1.c`) |
| `Decimal.dfy`, `Wrappers.dfy` | decimal numerals and shared vocabulary |

`dafny verify dfyconfig.toml` checks everything.

## How the programs are modelled

Concurrency is interleaving. The delivery server and the account server are step machines: `Next` is one atomic step of
one thread, named by an event, `Exec` a whole run, and every theorem speaks of all runs of any number of threads. The
steps are as fine as the locks require: testing a ledger, committing to it and releasing its mutex are separate steps, and
so are an account's test, load, store and release. Mutexes are not fair. The handlers and loops that change objects
in place are classes and methods whose postconditions are stated with the same functions the theorems are about.

Modelling decisions, about `hw3/hw3.c` unless they name another file:

- The comparison at line 203 reads the first ledger and then the second, without a lock, in two steps.
- After a "Yes" a mutex is unlocked twice (220 and 233, 254 and 270). The second unlock is taken to change nothing.
- Line 257 takes `mutex_time1` on behalf of the second courier and nothing ever releases it; this is kept as it is.
- An answer that is neither "Yes" nor "No" (a client that disconnects at the prompt leaves the word "confirm" in the
  buffer, which is such an answer) commits nothing but still ticks; this is kept as it is.
- Requests that change nothing (the shop list, an unknown word, a "confirm" before the first order line) are not steps.
- In `lab6/server.c` the accept loop takes the account's mutex too. It changes no balance and always releases the mutex, so
  the account machine leaves that contender out.
- `determine_restaurant` returns a shared static buffer; the call and the copy at line 182 are one step.

Where the programs do not keep what they promise, there is a theorem that says exactly when they do:

- The project page says that the two couriers handle race conditions. A client waiting for the first courier can still be
  delivered to if and only if no thread has gone through line 257 (`WaitsForEverIffLeaked`), and eight orders are enough
  for that to happen (`LeakHappens`).
- Once all clients have gone, a ledger is back at zero if and only if nobody with a distance to go answered a prompt of its
  courier with neither "Yes" nor "No" (`IdleLedgerExactly`); otherwise it is negative, which seven orders can bring about
  (`LedgerGoesNegative`).
- The guesser finds exactly the numbers in its range, for every upper bound including those below two (`Completeness`). Its
  timer may fire at any time as long as it does not overwrite the cell under an undelivered reply (`RefinesSearch`). When it
  is about to do just that, `LateTimerExactly` says which numbers a timer would lose, and that it is harmless for all of them in
  one case only; `UntimelyLosesTheTruth` is a run that loses one.
- In the menu, `shopping_cart==1` is a comparison, so the flag stays zero; an invalid item choice keeps the running total. It
  endangers a later delivery if and only if something is owing (`HarmlessExactly`), and then an order at any other restaurant
  is delivered over the wrong distance (`InvalidChoiceMisdelivers`, `CookieFromTheDiner`).

## Model

| member | source | states |
|---|---|---|
| Delivery.StepCourierLocks | hw3/hw3.c:203-300 | every step keeps each courier's mutex owned by exactly the thread standing between its lock and its unlock, prompts and ticks included |
| Delivery.StepTimerLocks | hw3/hw3.c:257-300 | every step keeps a delivery-time mutex owned by the one thread in that courier's tick loop, or, for the first, by a thread that leaked it |
| Delivery.StepClients | hw3/hw3.c:203-300 | every step keeps each thread's local facts, among them that a tested ledger value stays current until the commit although the client may take its time to answer |
| Delivery.StepLedger | hw3/hw3.c:214-300 | every step keeps each ledger equal to what its clients owe: committed distances less ticks paid |
| Delivery.ExecInv | hw3/hw3.c:156-341 | all of these hold after every run from a state in which they hold |
| DeliverySafety.LedgerConservation | hw3/hw3.c:203-300 | in every reachable state a ledger is all distances ever committed minus all ticks ever paid, and equals what its clients still owe |
| DeliverySafety.CleanLedger | hw3/hw3.c:208-300 | when every prompt was answered "Yes" or "No" a ledger is the sum of its clients' remaining distances and is never negative |
| DeliverySafety.IdleLedgerExactly | hw3/hw3.c:222-300 | with no thread under way a ledger is never above zero, and it is zero if and only if every client who answered a prompt of its courier with neither "Yes" nor "No" had no distance to go |
| DeliverySafety.OtherIsUnbacked | hw3/hw3.c:213-263 | a thread is past its commit point without having committed exactly when it gave such an answer |
| DeliverySafety.TestedIsIncremented | hw3/hw3.c:206-269 | the value tested against 30 is the value the distance is added to, and consent was asked exactly when the sum exceeds 30 |
| DeliverySafety.ConsentBound | hw3/hw3.c:206-269 | a ledger is at most 30 plus 8 for each "Yes" given to its courier, not counting a consent not yet acted on |
| DeliverySafety.NoConsentNoExcess | hw3/hw3.c:206-269 | without a "Yes" to a courier its ledger never exceeds 30 |
| DeliverySafety.SerialDelivery | hw3/hw3.c:279-300 | at most one thread ticks for a courier; a thread has paid exactly its tick count, an arrived one exactly its distance, one that left none |
| DeliverySafety.ArrivedIsBilled | hw3/hw3.c:77-200 | under every interleaving an arrived client is billed for its own lines at its own first restaurant and ticked 3, 5 or 8 times by its first item, or not at all if that is not listed |
| DeliverySafety.ExactDrain | hw3/hw3.c:279-300 | without further commits the ticks to come never exceed the ledger and equal it exactly when all its clients are paid in full |
| DeliveryProgress.StepMeasure | hw3/hw3.c:203-312 | every step of a confirmed client lowers a measure |
| DeliveryProgress.SomeoneMoves | hw3/hw3.c:206-300 | while any confirmed client is under way and does not need the leaked mutex, some thread can step |
| DeliveryProgress.OnlyTheLeakStrands | hw3/hw3.c:193-312 | whatever the clients answer, every schedule of n clients ends within 33 n working steps, and a client still under way then is one that needs the leaked mutex |
| DeliveryProgress.AllArrive | hw3/hw3.c:193-312 | if nobody says "Yes" to the second courier, every schedule of n clients ends within 33 n working steps, and where it cannot go on nobody is under way |
| DeliveryProgress.DrainsToZero | hw3/hw3.c:279-300 | once all confirmed clients have committed there is a continuation that brings all of them home with exactly as many ticks as each ledger shows, leaving both at zero |
| DeliveryProgress.LeakIsForEver | hw3/hw3.c:251-259 | after the leak no continuation starts a delivery by the first courier or passes line 257 again |
| DeliveryProgress.LeakedIffTaken | hw3/hw3.c:257 | the first delivery-time mutex has leaked in a reachable state exactly when some thread of the run went through line 257 |
| DeliveryProgress.WaitsForEverIffLeaked | hw3/hw3.c:257-280 | a client waiting for the first courier can still start in some continuation if and only if the mutex has not leaked, that is, nobody went through line 257 |
| DeliveryRuns.LeakHappens | hw3/hw3.c:203-280 | among any eight or more clients a run exists after which the first one waits for ever |
| DeliveryRuns.EvaderLeavesDebt | hw3/hw3.c:222-300 | from any settled state without a leak, one such answer by a client with a distance to go leads to a finished run whose ledger is negative |
| DeliveryRuns.LedgerGoesNegative | hw3/hw3.c:203-300 | among any seven or more clients a run exists that ends with nobody under way and the first ledger below zero |
| DeliveryServer.Server.constructor | hw3/hw3.c:335-341 | the shared objects start with empty ledgers and free mutexes |
| DeliveryServer.Server.Decide | hw3/hw3.c:207-271 | test, prompt, commit and release together: a refusal only removes the client, any commit adds the distance, the mutex ends free |
| DeliveryServer.Server.Deliver | hw3/hw3.c:279-300 | the tick loop alone takes exactly the distance off the ledger and leaves every lock as it was |
| DeliveryServer.Server.HandleConfirm | hw3/hw3.c:193-312 | a whole confirm without interference: both ledgers unchanged, or short by the distance after an "other" answer; the first delivery-time mutex stays taken exactly after a "Yes" to the second courier; the bill is the price |
| DeliveryServer.Server.ServeClient | hw3/hw3.c:166-326 | a whole client without interference: it is gone exactly if it ordered nothing or said "No" to a wait over 30, otherwise it arrives and is billed for its own lines at its first line's restaurant; ledgers, locks and other clients are left as a confirm leaves them |
| DeliveryServer.Server.AdmitAll | hw3/hw3.c:203-271 | clients admitted one after the other load the couriers as the greedy placement does |
| Balance.GreedyBound | hw3/hw3.c:203-269 | twice the heavier load is at most three times the heavier side of any split, and the loads differ by at most the largest distance |
| Balance.GreedyBoundIsTight | hw3/hw3.c:203-269 | the factor three halves is met at every scale |
| OrderBook.AfterIsTally | hw3/hw3.c:61-94 | after any lines each counter counts its own item, and restaurant and distance (3, 5, 8, or 0 for an unlisted item) are those of the first line |
| OrderBook.PriceIsBill | hw3/hw3.c:61-106 | the price is the sum of quantity times unit price over exactly the lines of the first line's restaurant, in numbers by first item; nothing if that is not listed |
| OrderBook.PriceFitsExactly | hw3/hw3.c:96-106 | no non-negative order of total quantity q leaves 32 bits if and only if q is at most 17895697 |
| OrderBook.MessageRoundTrip | hw3/hw3.c:108-154 | a reader who expects bars between entries and one newline at the end gets exactly the restaurant's positive counts, each with its own name, in menu order; there is no message when there are none |
| OrderBook.EchoByItem | hw3/hw3.c:61-188 | after any lines a name is heard with a number exactly if that many of its item were ordered and the first line's item belongs to the same restaurant, for all six items and no other name |
| OrderBook.MessageInjective | hw3/hw3.c:108-154 | equal messages of one restaurant mean equal positive counts |
| OrderBook.MessageFits | hw3/hw3.c:109-152 | with 32-bit counts a message has at most 47 characters of the 256 |
| OrderBook.Session.UpdateItemCount | hw3/hw3.c:61-75 | the in-place update counts the line's own item and nothing else |
| OrderBook.Session.DetermineRestaurant | hw3/hw3.c:77-94 | each item's restaurant and distance; an unlisted item leaves the distance |
| OrderBook.Session.SendToClient | hw3/hw3.c:108-154 | bounded appends cut nothing off: what is sent is the whole message, and it reads back as the restaurant's own two counters under their names |
| OrderBook.Session.HandleOrders | hw3/hw3.c:166-188 | a whole order in place: the bill so far and after every line an echo that reads back as what was ordered at the first line's restaurant |
| Search.Completeness | lab7/guess.c:21-49 | for every upper bound and truth the guesser hits exactly the numbers from one up to the bound (below a bound of two: the one number first guessed, rounded toward zero), and otherwise repeats one wrong guess for ever |
| Search.Settles | lab7/guess.c:26-49 | every game hits or sticks within as many rounds as the bounds are wide |
| Search.GuessesIsFirstHit | lab7/guess.c:26-49 | the counted number of guesses is the first hit of the round-by-round game |
| Search.OptimalSearch | lab7/guess.c:26-49 | k guesses suffice for the guesser, and for any strategy at all over the verdicts, exactly from the binary length of upper - 1 on |
| Search.WorstCaseGuesses | lab7/guess.c:26-49 | no truth in range takes more guesses than that, and some truth takes that many |
| Search.BitsIsLogarithm | lab7/guess.c:45 | the binary length is the floor of the binary logarithm plus one |
| Search.NoOverflowExactly | lab7/guess.c:45 | the midpoint sum fits 32 bits for all truths in range and all rounds if and only if the upper bound is at most 2^30 |
| SignalProtocol.RefinesSearch | lab7/guess.c:26-49 | on every interleaving whose timer does not overwrite the cell under an undelivered reply, a pending verdict is about the current guess and the bounds are those of the sequential search after as many rounds as fresh replies |
| SignalProtocol.TimelyGame | lab7/game.c:26-43 | on those interleavings a truth in range stays between the bounds, and the guesser exits exactly on the fresh reply to its last counted guess |
| SignalProtocol.EveryReplyCounts | lab7/guess.c:26-49 | if the timer never fires over an undelivered reply at all, every delivered reply is a fresh one |
| SignalProtocol.SameRun | lab7/guess.c:26-49 | the run so far is a run for every number that is still possible |
| SignalProtocol.LateTimerExactly | lab7/guess.c:26-49 | in a reachable state with an undelivered reply and another number than the midpoint in the cell, a timer now loses exactly the still possible numbers from the midpoint up after a "smaller", below it after a "larger"; it loses none if and only if the cell holds the lower bound and the midpoint is the next number |
| SignalProtocol.UntimelyLosesTheTruth | lab7/guess.c:26-49 | with bound 100 and truth 43 a repeated timer signal can lose the truth |
| SignalProtocol.Game.Handler | lab7/game.c:26-43 | the handler leaves "larger" in the cell exactly if the truth is larger than the guess, "smaller" exactly if it is smaller |
| SignalProtocol.Guess.Handler | lab7/guess.c:26-41 | the lower bound moves onto the guess exactly on "larger", the upper one exactly on "smaller", and any other result exits |
| SignalProtocol.Guess.TimerHandler | lab7/guess.c:43-49 | the cell holds half of the sum of the bounds, rounded toward zero |
| SignalProtocol.Play | lab7/guess.c:26-49 | a game in lock step leaves on the truth after exactly the counted guesses |
| Account.Refines | lab6/server.c:44-62 | every interleaving of lock, test, load, store and unlock refines the atomic account run in lock-acquisition order, each client's operations occurring as often as its loop has gone round |
| Account.Realised | lab6/server.c:44-62 | every order that asks no client for more than its turns is the lock order of some interleaving |
| Account.SharedAccount.HandleClient | lab6/server.c:33-63 | one client's loop in place is its atomic operation repeated: n rounds deposit n times the amount, withdrawals less refusals take n times the amount, a refusal leaves less than the amount, and no rounds change nothing |
| AccountTotals.BalanceInRange | lab6/server.c:44-62 | with non-negative amounts the balance is at every step between zero and the total of all deposits |
| AccountTotals.RefusedIsReplayed | lab6/server.c:52-57 | the refusals of a run are those of the atomic account |
| AccountTotals.EveryRoundTaken | lab6/server.c:44-62 | in every finished run each client has held the mutex exactly as many times as it asked for rounds |
| AccountTotals.FinalBalance | lab6/server.c:44-62 | the final balance is the sum of amount times rounds over all deposits, less that over withdrawals, plus the refused amounts |
| AccountTotals.FinalBalanceRange | lab6/server.c:44-62 | with D and W those two sums, it lies in [max(0, D - W), D] and is D - W exactly when nothing was refused |
| AccountTotals.RangeIsAttained | lab6/server.c:44-62 | both ends are final balances of complete interleavings when D is at least W and withdrawals are positive |
| ClientTable.NumClients | lab6/server.c:109-130 | the number of clients is the number of threads created, capped at 100 |
| ClientTable.SocketIsKept | lab6/server.c:109-130 | however many connections follow, a started thread's slot holds the socket it was created for |
| ClientTable.SlotsAreDistinct | lab6/server.c:117-124 | different threads get different slots |
| ClientTable.AcceptLoop.Accept | lab6/server.c:116-129 | one connection in place; rejected exactly when the table is full |
| ClientTable.AcceptLoop.AcceptAll | lab6/server.c:109-130 | any series of connections in place, every started thread reading its slot only afterwards |
| SegmentDisplay.GlyphInjective | hw1/seg_driver.c:81-102 | no two digits put the pins into the same state |
| SegmentDisplay.GlyphLooksLike | hw1/seg_driver.c:12-102 | each digit lights, through the pins wired to them, exactly the segments of its shape |
| SegmentDisplay.DisplayRoundTrip | hw1/seg_driver.c:81-133 | a reader who looks at the lit segments only reads the price off, with no leading zero |
| SegmentDisplay.SegmentDriver.Write | hw1/seg_driver.c:108-138 | for every 32-bit price ten slots suffice, the digits are played most significant first and read off as the price; nothing is shown unless it is positive |
| Decimal.DigitsOfValue | hw1/seg_driver.c:120-125 | the extracted digits are the only canonical numeral of their value |
| Decimal.DigitAt | hw1/seg_driver.c:120-125 | the digit extracted i-th is that of ten to the i |
| Decimal.TextAt | hw3/hw3.c:114-146 | each character a positive count is printed with is the decimal digit of its place |
| OrderMenu.TotalIsOwing | hw1/hw1.c:24-143 | over any run the running total and every amount sent are the sum of unit price times quantity of all lines since the last cancel or delivery |
| OrderMenu.AmountOnDisplay | hw1/hw1.c:121-134 | with non-negative quantities the display reads off as what was owing |
| OrderMenu.OneRestaurant | hw1/hw1.c:63-143 | with non-negative quantities and no invalid item choice while something is owing, every line delivered with a quantity is of the one restaurant whose distance is sent |
| OrderMenu.HarmlessExactly | hw1/hw1.c:93-99 | after any such run the next number typed leaves every later delivery right if and only if it is offered or is not typed at an item prompt with something owing |
| OrderMenu.InvalidChoiceMisdelivers | hw1/hw1.c:63-134 | an invalid item choice with something owing, a new order at any other restaurant and its confirmation make a delivery over the wrong distance |
| OrderMenu.CookieFromTheDiner | hw1/hw1.c:17-134 | a run from the start that delivers a Dessert-shop cookie over the Diner's distance |
| MenuSessions.OneOrder | hw1/hw1.c:17-134 | a restaurant, any picks and a confirmation typed at the start end in exactly one delivery, at 60/80, 40/70 or 120/50 times the quantities picked and over 3, 5 or 8, unless the sum is zero |
| MenuSessions.SessionFed | hw1/hw1.c:43-148 | any number of visits to the order branch, each with an unknown restaurant or any picks ended by a confirmation, a cancellation or an invalid choice, come to the stated log, sum owing and next prompt, in plain prices and distances |
| MenuSessions.EveryInput | hw1/hw1.c:43-148 | every input whatever is the beginning of such a session, and its log is the beginning of that session's |
| MenuProgram.PlaceOrder | hw1/hw1.c:63-143 | the order branch in place takes the steps of the menu up to where it is left, and shows its deliveries |
| MenuProgram.RunMenu | hw1/hw1.c:43-148 | the whole program on any input: its log is the outcome of the session typed, or the beginning of one if the input stops in the middle, and the display has shown exactly its deliveries |

## Left out

- OrderBook.Session.SendToClient: requires the counters to be at most 2147483647, as the C ints they are; 32-bit wrap-around of a counter is not modelled.
- MenuProgram.RunMenu: requires the running total to stay within 32 bits; signed overflow is undefined in C.
- AccountTotals.FinalBalance: counts in unbounded integers; `BalanceInRange` says when a 32-bit balance cannot overflow.
- DeliveryServer.Server.HandleConfirm: runs without interference; interleavings are the subject of the step machine, whose steps the other methods of the class take one at a time.
- DeliverySafety.ConsentBound: counts 8 for every "Yes", the longest distance, although the consenting order may be shorter.
- Undefined behaviour of the second unlock, and the race inside the shared static buffer of `determine_restaurant`, which are the modelling decisions stated above.
- Sockets, short reads, `sscanf` failure, uninitialised variables, `accept` errors, logging and message texts other than the order echo and the bill.
- Real time: a `sleep` and the timers' periods; a tick is one step.
- The fields and variables that affect nothing: `available`, `waittime`, `assigned_delivery_person`, hw3's `timer_handler`.
- The shop list of the server and of the menu, a constant text.
- A `copy_from_user` that fails, module registration, GPIO requests and the clean-up paths of the drivers.
- The LED driver of `hw1`, which counts a distance down on eight lamps; here the distance written to it is part of the menu's log.
- Shutdown on SIGINT and the shared-memory set-up and clean-up of `lab6` and `lab7`.
- `lab3`, `lab4`, `lab5` and `hw2`: input and output wrappers and a finite letter table.
