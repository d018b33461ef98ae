# TCA Blackjack: a verified model

This project models the services that run one round of blackjack (the player table, the
bank with its COBOL programs and PostgreSQL tables, the shoe, the three hand evaluators)
and four protocols beside it (passkey enrolment, the CSV reader and table paginator of the
document service, the gateway's event buses). Dafny proves what each promises.

| module | models |
|---|---|
| `HandEvaluator`, `DealerAI`, `DealerLoop` | the Haskell and Python evaluators, the dealer's decision, the table's dealer loop |
| `Shoe` | the deck service: building, shuffling in place, dealing |
| `Decimal`, `Strings`, `Sequences` | amount texts and integer cents in 64 bits |
| `Numeric` | the texts a NUMERIC(15,2) column takes and what it stores for them, against what the handlers charge |
| `Cobol` | the three COBOL programs on fifteen-digit fields |
| `Ledger`, `Bank`, `BankInterleaving` | the bank on cents as a value, the bank as it is written (a class whose handlers work on text), and its handlers interleaved |
| `TableModel`, `Table` | the player table as a value, and as it is written (a class that overwrites its state step by step) |
| `TableRest`, `TableMoney`, `TableRuns` | what holds between actions, what each action does to the money, and whole runs |
| `TableRules` | the rules of play: what each action deals, when the turn goes on, which round it settles |
| `Auth` | the enrolment and login chains of the auth service, interleaved |
| `AuthRuns` | these chains left alone, from first request to session token |
| `Csv`, `Paginator` | the document service's row reader and table renderer |
| `Bus` | the gateway's buses, as written and interleaved |

Each imperative method is proved equal to a function of the value model (`Bank` to
`Ledger`, `Table` to `TableModel`); what the repository promises is proved about those.

## Assumptions

- Blackjack profit is rounded down to a whole dollar, as the comment in CALC-PAYOUT says. The
  precision of the intermediate `(x / 100) * 100` is not fixed by the source. A COBOL store
  keeps the low-order fifteen digits, as fields without a size-error clause do.
- Each database transaction is atomic, and a statement that fails undoes its transaction.
- A column reads its text as PostgreSQL 16 does, the version in `docker-compose.yml:412`: white
  space, sign, digit groups, exponent, and hexadecimal, octal or binary integers.
- The services answer. The cards a table makes up when the shoe is empty are part of the model.
- Table actions run to their end one after the other, and a player table's player is not the
  demo player. In `BankInterleaving` the bank's own requests interleave freely.
- The random choices of the shuffle are given to it; nothing is assumed of them.
- Random identifiers are fresh, signed tokens are not forged, WebAuthn verification may answer
  either way.

## Findings

Where the code and its documentation differ, the model follows the code.

- The tables' dealer loop stands on a soft seventeen; the dealer AI and its contract hit
  (`DealerLoop.FinalHandAndAI`, and `DealerLoop.SoftSeventeenStands` for an ace and a six). The
  loop draws ten cards at most, and ten do happen.
- `contracts/openapi/bank-service.yaml:224` promises 2.5 times the stake for a blackjack; the
  program returns up to a dollar less, and exactly that only on an even number of whole dollars
  within fifteen digits (`Cobol.PromisedBlackjack`; `Cobol.BlackjackFallsShort` for 1 and 15
  dollars).
- A blackjack on less than sixty-seven cents is journalled as won although only the stake comes
  back (`Cobol.TypeTellsReturn`).
- `contracts/openapi/hand-evaluator.yaml:141` shows a natural that is not soft; every natural is
  (`HandEvaluator.NaturalIsSoft`).
- A comment in `bank-service/go/cobol.go:76` reads "1000." as whole dollars; the code refuses it
  (`Numeric.TrailingPoint`).
- The handlers charge the sign, the whole part and two fraction digits of an amount text, and the
  column stores all of it: "1.005" is charged 100 cents and stored as 101, "1.50e3" charged 150
  and stored as 150000, "1.50_9" charged 150 and stored as 151, "-0.50" charged 50 and stored as
  -50 (`Numeric.RoundingDiffers`, `Numeric.ExponentDiffers`, `Numeric.GroupsDiffer`,
  `Numeric.SignDiffers`). They agree exactly on texts without minus sign, without exponent and
  with a third fraction digit, if any, below five (`Numeric.ChargeMatchesRecord`).
- The sign of a negative amount is lost on its cents (`Decimal.CentsRoundTrip`).
- Windows of a player that open at the balance read and do not overlap are not enough for a
  serial result: a payout may read after another settled its bet, and is paid again
  (`BankInterleaving.LateReadPaysTwice`). The result is serial exactly when no payout is committed
  whose bet was settled between its lookup and its read (`BankInterleaving.SerialExactly`,
  `BankInterleaving.WindowKeepsBet`).
- A session does not imply a credential row when a first enrolment presents a credential id that
  another player has (`Auth.StepOwned`, `AuthRuns.TakenCredential`).
- The fields and columns have fifteen digits: beyond them credits wrap (`Cobol.CreditAdds`,
  `Cobol.FieldsHoldReturn`). `Ledger.RowIsExact` and `Bank.TextDecides` turn this and the
  differences above into one check on the amount text and the balance.

## Model

| member | source | states |
|---|---|---|
| HandEvaluator.ReduceAces | hand-evaluator/Main.hs:85-89 | counts aces down only while the total is over 21, and stops over 21 only when none is left |
| HandEvaluator.Closed | hand-evaluator/Main.hs:70-89 | closed form: one ace counts eleven exactly when there is one and that keeps the total within 21 |
| HandEvaluator.OptimalTotal | hand-evaluator/Main.hs:58-89 | the value is the largest total of at most 21 over all ways of counting the aces, or the smallest total if none fits |
| HandEvaluator.SoftMeansOneHighAce | hand-evaluator/Main.hs:70-89 | soft if and only if the chosen total counts an ace as eleven, and then exactly one |
| HandEvaluator.OrderIndependent | hand-evaluator/Main.hs:58-89 | permuted hands evaluate alike |
| HandEvaluator.NaturalIsSoft | hand-evaluator/Main.hs:76-83 | every two-card 21 is soft, contrary to the API example |
| HandEvaluator.NaturalExactly | hand-evaluator/Main.hs:76-83 | a hand is a natural exactly when it is an ace and a card that counts ten |
| DealerAI.EvaluateHand | dealer-ai/main.py:27-48 | the Python loop gives the Haskell total and softness on every hand, hidden cards included |
| DealerAI.DealerDecision | dealer-ai/main.py:51-90 | the method answers the decision that the house rule is about, with the evaluator's total and softness |
| DealerAI.HouseRule | dealer-ai/main.py:51-90 | bust exactly when every way of counting the aces is over 21; otherwise the best way decides: stand on more than 17 or a 17 without a high ace, hit on the rest, with its total and softness reported |
| DealerLoop.DealerDrawBounds | game-state/main.go:841-858 | for every shoe the loop ends within its budget, at 17 to 26, and every hand shown to the dealer AI would be hit |
| DealerLoop.DrawsInOrder | game-state/main.go:842-857 | the dealer draws the shoe's next cards in order, and threes of spades once it has run out |
| DealerLoop.BudgetFalls | game-state/main.go:842-857 | every draw uses up the budget, although it may lower the total |
| DealerLoop.AtMostTenDraws | game-state/main.go:841-858 | from two cards the loop draws at most ten times, whatever the shoe |
| DealerLoop.TenDrawsHappen | game-state/main.go:841-858 | the bound of ten is reached |
| DealerLoop.TotalCanFall | game-state/main.go:842-857 | a draw below 17 can lower the tested value, so it is no measure |
| DealerLoop.LoopFollowsAI | dealer-ai/main.py:66-84 | the loop draws exactly where the AI hits, but for a soft 17 |
| DealerLoop.FinalHandAndAI | game-state/main.go:842-857 | the loop's final hand would still be hit by the AI exactly when it is a soft 17 |
| DealerLoop.SoftSeventeenStands | game-state/main.go:842-857 | dealt an ace and a six the loop stands whatever the shoe, and the AI would hit |
| Shoe.BuildDecks | deck-service/main.go:33-41 | the nested loops build the decks in order |
| Shoe.DecksCount | deck-service/main.go:29-41 | every one of the 52 cards occurs once per deck, and no other card |
| Shoe.CardsCountPips | deck-service/main.go:29-30 | ranks in deck order count their number, court cards ten, the ace eleven or one |
| Shoe.Shuffle | deck-service/main.go:42 | in place, from the last card down, each is swapped with the one chosen for it |
| Shoe.ShuffledKeeps | deck-service/main.go:42 | whatever is chosen, the cards stay the same with their multiplicities |
| Shoe.EveryOrderReached | deck-service/main.go:42 | every order of the cards is reached by some choices |
| Shoe.OneWayToEach | deck-service/main.go:42 | and, of items that differ, by only one: the shuffle is uniform when the choices are |
| Shoe.Shoe.constructor | deck-service/main.go:33-44 | a new shoe is its decks shuffled as chosen, none dealt |
| Shoe.Shoe.Deal | deck-service/main.go:83-88 | deals from the front, fewer when fewer are left; dealt cards followed by the rest stay the shuffled shoe in order |
| Decimal.DollarsToCents | bank-service/go/cobol.go:61-90 | the parser in steps computes the reading that the round-trip lemmas are about, refusals and 64-bit wrap included |
| Decimal.WrapsModulo | bank-service/go/cobol.go:71-86 | arithmetic on cents keeps the low-order sixty-four bits |
| Decimal.PlainAmount | bank-service/go/cobol.go:61-90 | a plain decimal is read as its whole part and first two fraction digits, refused or wrapped around exactly outside 64 bits |
| Decimal.SignedAmount | bank-service/go/cobol.go:67-88 | a minus sign reaches the whole part and not the fraction |
| Decimal.ReadsBack | bank-service/go/cobol.go:61-100 | what reading gives back for every amount the bank writes |
| Decimal.CentsRoundTrip | bank-service/go/cobol.go:61-100 | cents survive writing and reading if and only if they are not negative or whole dollars |
| Decimal.WritesNormal | bank-service/go/cobol.go:92-100 | amounts that are not negative are written in the one normal form |
| Decimal.NormalRoundTrip | bank-service/go/cobol.go:61-100 | normal text is what the cents it stands for are written as, if and only if they fit in 64 bits |
| Numeric.TrailingPoint | bank-service/go/cobol.go:73-87 | a point without digits is refused, though the columns would take it |
| Numeric.StoresWritten | bank-service/go/db.go:60-87 | a NUMERIC(15,2) column stores every written balance as the cents it was made from |
| Numeric.TruncatedExactly | bank-service/go/db.go:70-76 | rounded to a column, a literal comes to its whole hundredths, if there are any, if and only if its exponent is zero and its third fraction digit below five |
| Numeric.PlainMatchesRecord | bank-service/go/handlers.go:214-275 | on plain decimals of any size the charged and the recorded amount agree if and only if the third fraction digit is below five (beyond the column's range: if and only if both refuse) |
| Numeric.ChargeReadsLiteral | bank-service/go/cobol.go:61-90 | for every text charged and stored, the two are made of one sign and one literal: the handlers take its whole part and hundredths, the column its rounded value with the exponent |
| Numeric.ChargeMatchesRecord | bank-service/go/handlers.go:214-275 | for every text charged and stored the two agree if the text has no minus sign, no exponent and no third fraction digit that rounds up, and only if so while its digits are cents of 64 bits |
| Numeric.BlankBeforeAmount | bank-service/go/cobol.go:62 | before an amount the handlers drop what Go counts as white space, the columns only the six ASCII characters, and both refuse anything else |
| Numeric.ZeroWithExponent | bank-service/go/db.go:70-76 | the columns read exponents up to half the largest 32-bit integer, and fractions of at most 16383 digits |
| Numeric.OtherBases | bank-service/go/db.go:70-76 | the columns read hexadecimal, octal and binary integers with their digit groups |
| Numeric.RoundingDiffers | bank-service/go/cobol.go:79-80 | "1.005" is charged as 100 cents and stored as 101 |
| Numeric.ExponentDiffers | bank-service/go/cobol.go:73-87 | "1.50e3" is charged as 150 cents and stored as 150000 |
| Numeric.GroupsDiffer | bank-service/go/cobol.go:79-80 | "1.50_9" is charged as 150 cents and stored as 151 |
| Numeric.SignDiffers | bank-service/go/cobol.go:67-86 | "-0.50" is charged as 50 cents and stored as -50 |
| Numeric.SpaceDiffers | bank-service/go/cobol.go:62-80 | " +1.005 " is charged and stored as "1.005" is |
| Numeric.WrapCoincides | bank-service/go/cobol.go:71 | beyond 64 bits the wrapped charge can happen to be what is stored, for a text that fails the check |
| Cobol.FieldKeepsDigits | bank-service/cobol/VALIDATE-DEBIT.cob:22-27 | a field keeps the low-order fifteen digits of what is stored in it, with the sign if it has one |
| Cobol.ValidateDebit | bank-service/cobol/VALIDATE-DEBIT.cob:22-48 | fifteen-digit operands: refuses debits that are not positive, subtracts exactly when funds suffice |
| Cobol.CalcCredit | bank-service/cobol/CALC-CREDIT.cob:22-40 | credits in fifteen-digit fields, a zero credit without the program |
| Cobol.CreditAdds | bank-service/cobol/CALC-CREDIT.cob:31-37 | the credit adds if and only if the sum has fifteen digits, and never turns negative |
| Cobol.OutcomeOfName | bank-service/cobol/CALC-PAYOUT.cob:38-71 | the four result names the game sends are understood as meant |
| Cobol.CalcPayout | bank-service/cobol/CALC-PAYOUT.cob:27-78 | the successive stores compute the fifteen-digit return and the row type; unknown results are refused |
| Cobol.OutcomeByName | bank-service/cobol/CALC-PAYOUT.cob:38-76 | a result text is understood as an outcome exactly when its first nine characters, trimmed and in capitals, are the outcome's name |
| Cobol.TypeTellsReturn | bank-service/cobol/CALC-PAYOUT.cob:42-69 | a payout is typed won, push or loss if and only if more, as much or less than the stake comes back, but for a blackjack on less than sixty-seven cents |
| Cobol.ReturnedModulo | bank-service/cobol/CALC-PAYOUT.cob:42-69 | whatever the stake, the fields return the low-order fifteen digits of the documented return |
| Cobol.FieldsHoldReturn | bank-service/cobol/CALC-PAYOUT.cob:42-69 | the fields hold the documented return if and only if it has fifteen digits, which it does below 4 * 10^14 cents |
| Cobol.BlackjackReturn | bank-service/cobol/CALC-PAYOUT.cob:43-54 | the documented blackjack return is never above 5/2 of the stake, less than a dollar short of it, and equal to it if and only if the stake is an even number of whole dollars |
| Cobol.PromisedBlackjack | bank-service/cobol/CALC-PAYOUT.cob:43-54 | the program's fields give 5/2 of the stake if and only if it is an even number of whole dollars and 5/2 of it has fifteen digits |
| Cobol.BlackjackFallsShort | bank-service/cobol/CALC-PAYOUT.cob:43-54 | 1 dollar returns 2.00 and not 2.50, 15 dollars return 37.00 and not 37.50 |
| Cobol.ReturnsAreOrdered | bank-service/cobol/CALC-PAYOUT.cob:42-69 | on whole dollars loss, push, win and blackjack return more in this order, the last two alike only on one dollar |
| Ledger.DebitServed | bank-service/go/handlers.go:239-275 | a bet or withdrawal is served if and only if the balance covers the charge, and what its row then is, type included |
| Ledger.DepositServed | bank-service/go/handlers.go:430-447 | a deposit is served for every account, and what its row is |
| Ledger.PayoutServed | bank-service/go/handlers.go:321-369 | a payout is served if and only if its bet is open; the row has the documented return in fifteen digits and, from sixty-seven cents on, a type that tells more, as much or less than the stake |
| Ledger.PreparedRow | bank-service/go/handlers.go:222-275 | what a handler is about to write fits its columns, starts from the balance read and is not negative if that was not |
| Ledger.ApplyValid | bank-service/go/db.go:163-318 | every served request keeps column bounds and open bets' accounts, and only appends to the journal |
| Ledger.AccountFollowsJournal | bank-service/go/db.go:163-318 | over every serial run each row starts where the player's previous row ended, the last one is the balance, and it never goes below zero |
| Ledger.RowIsExact | bank-service/go/handlers.go:214-281 | whatever is charged and stored, a served request changes the balance by the amount it journals if and only if the column holds the fifteen digits charged and a credit leaves fifteen digits, or both fail by the same amount |
| Ledger.Conservation | bank-service/go/db.go:163-318 | balance = opening + deposits + payouts - bets - withdrawals, over every run in which the requests that write this player's rows are exact in that sense |
| Ledger.OpenBetsAreUnsettled | bank-service/go/db.go:189-282 | open_bets is exactly the bets issued and not settled, unchanged, and no bet is settled twice |
| Ledger.RepeatedPayout | bank-service/go/handlers.go:321-330 | a payout repeated at any later time leaves the ledger as it is |
| Bank.TextDecides | bank-service/go/handlers.go:214-281 | a served bet, withdrawal or deposit changes the balance by the amount it journals if and only if its amount text has no minus sign, no exponent and no third fraction digit that rounds up, for up to fifteen digits and credits that fit |
| Bank.ExponentBet | bank-service/go/handlers.go:214-275 | a bet of "1.50e3" takes 150 cents and is recorded as 150000 |
| Bank.Bank.GetBalance | bank-service/go/db.go:139-148 | the balance as text, or none without an account |
| Bank.Bank.UpdateAndRecord | bank-service/go/db.go:166-187 | the two statements every change starts with: success exactly when account and all texts are acceptable, and then the new balance and row |
| Bank.Bank.PlaceBet | bank-service/go/db.go:163-204 | one committed bet: balance, row, open bet and identifier, or no change at all |
| Bank.Bank.SettlePayout | bank-service/go/db.go:250-283 | one committed payout: balance, row and open bet removed, or no change at all |
| Bank.Bank.ApplyBalanceChange | bank-service/go/db.go:289-318 | one committed deposit or withdrawal, or no change at all |
| Bank.Bank.ReplenishDemoPlayer | bank-service/go/db.go:208-218 | resets the demo balance without a row |
| Bank.Bank.GetOpenBet | bank-service/go/db.go:228-237 | the open bet's player and amount as text |
| Bank.Bank.AccountHandler | bank-service/go/handlers.go:72-119 | opens an account, leaves an existing one alone, and answers accordingly |
| Bank.Bank.CheckFunds | bank-service/go/handlers.go:222-272 | the read half of a bet on text, for any positive cents: new balance, refusal, or the demo player's reset |
| Bank.Bank.BetHandler | bank-service/go/handlers.go:190-292 | a bet whose text is charged and stored, in any spelling, is served exactly as one request of the cents ledger; everything else changes nothing but the demo reset and gets its own status |
| Bank.Bank.PayoutHandler | bank-service/go/handlers.go:297-395 | an open bet with a known result is settled exactly as one request of the ledger; everything else changes nothing and gets 404 or 400 as the code has it |
| Bank.Bank.DepositHandler | bank-service/go/handlers.go:400-452 | a deposit whose text is charged and stored is served exactly as one request of the ledger; every other one changes nothing, with its status |
| Bank.Bank.WithdrawHandler | bank-service/go/handlers.go:456-516 | a withdrawal whose text is charged and stored is served exactly as one request of the ledger; every other one changes nothing, with its status |
| BankInterleaving.AloneIsServed | bank-service/go/handlers.go:214-511 | the steps of a request that nothing comes between serve it, whatever else is under way |
| BankInterleaving.ReplenishedIsServed | bank-service/go/handlers.go:245-272 | so do those of a demo bet that the balance did not cover, after the reset |
| BankInterleaving.PrepareFrame | bank-service/go/handlers.go:321-369 | what a request prepares depends on its player's balance and its open bet only |
| BankInterleaving.Serializable | bank-service/go/handlers.go:214-511 | if no player's windows from balance read to commit overlap and no payout of a settled bet is committed, every interleaving leaves the tables of the serial run in commit order |
| BankInterleaving.SettledOnceExactly | bank-service/go/handlers.go:321-379 | in every interleaving, overlapping or not, bets are settled once each if and only if no payout is committed whose bet is no longer open |
| BankInterleaving.SerialExactly | bank-service/go/handlers.go:214-511 | if no windows overlap, the result is that of some serial run if and only if no payout is committed whose bet is no longer open |
| BankInterleaving.WindowKeepsBet | bank-service/go/handlers.go:345-379 | within a payout's window its bet neither opens nor is settled, so a committed payout's bet was settled, if at all, between lookup and read |
| BankInterleaving.InterleavedGuarantees | bank-service/go/handlers.go:214-511 | every interleaving without overlapping windows keeps the journal chained to a balance of zero or more, and settles bets once each if and only if it ends as a serial run |
| BankInterleaving.InterleavedConservation | bank-service/go/handlers.go:214-511 | balance = opening + deposits + payouts - bets - withdrawals as journalled, in every interleaving without overlapping windows whose commits for the player are exact, payouts of settled bets included |
| BankInterleaving.OverlapLosesFirstChange | bank-service/go/handlers.go:430-447 | two overlapping requests of one player end as serial ones if and only if the first leaves the balance alone and they do not settle the same bet |
| BankInterleaving.LateReadPaysTwice | bank-service/go/handlers.go:321-379 | two lookups of one bet, then two payouts whose windows do not overlap: both are journalled |
| TableModel.ClampBet | game-state/main.go:600-612 | of all bets within the limits and the chips, the one nearest to what was asked for; all the chips when they are below the minimum |
| TableModel.BetLimits | game-state/main.go:600-609 | the limits are 10 and 500 dollars |
| Table.DollarTextIsCents | game-state/main.go:1117-1120 | the amount text the table sends is read and stored as that many dollars |
| Table.WholeOfBalance | game-state/main.go:1136-1168 | the integer part of a balance text is the balance cut off towards zero |
| Table.EstimateValue | game-state/main.go:1540-1561 | the Go loop gives the evaluator's total on every hand |
| Table.Table.constructor | game-state/main.go:123-144 | a new table is at rest if its player has no open bets |
| Table.Table.CallBankBet | game-state/main.go:1115-1140 | the identifier of the bet the bank took and the dollars left, or none |
| Table.Table.CallBankPayout | game-state/main.go:1145-1169 | the dollars after settlement, or -1 without one |
| Table.Table.PlayerBet | game-state/main.go:595-706 | bet, deal and natural check leave what the table model says, through all intermediate phases |
| Table.Table.PlayerHit | game-state/main.go:708-751 | one card; bust, 21 and five cards end the hand |
| Table.Table.PlayerStand | game-state/main.go:753-765 | ends the hand |
| Table.Table.PlayerDouble | game-state/main.go:767-809 | a second bet and one card, or a hit when chips or bank refuse |
| Table.Table.DealerHits | game-state/main.go:841-858 | the loop terminates with the dealer hand and shoe of the recursive draw |
| Table.Table.RunDealerTurn | game-state/main.go:811-861 | hole card, dealer draws unless the player is bust, and payout |
| Table.Table.RunPayout | game-state/main.go:863-939 | settles both bets with the judged outcome and clears the table |
| Table.Table.ProcessAction | game-state/main.go:569-593 | every accepted action equals the model's action and leaves a table at rest at rest |
| TableRules.BetRule | game-state/main.go:595-706 | a bet the balance covers is dealt cards one and three against card two, a natural is settled at once and any other hand is the player's to play; a bet not covered changes nothing |
| TableRules.HitRule | game-state/main.go:708-751 | the shoe's next card is added; below 21 with fewer than five cards the turn goes on with everything else as it was, otherwise one fair round with that hand is settled |
| TableRules.StandRule | game-state/main.go:753-765 | one fair round with the hand as it is is settled |
| TableRules.DoubleRule | game-state/main.go:767-809 | with chips and balance for it the stake is doubled and one fair round with one card more is settled; otherwise it is a hit |
| TableRules.IgnoredRule | game-state/main.go:569-593 | an action the phase does not provide for, and a split, change nothing |
| TableRules.DealerPlays | game-state/main.go:811-858 | the dealer's hand is the card shown and the shoe's next cards in order, two when the player is bust and else up to the first total of 17 or more |
| TableRest.BetTaken | game-state/main.go:614-622 | a bet the bank takes is open under the next identifier for exactly its dollars |
| TableRest.BetPaid | game-state/main.go:906-919 | paying an open bet closes it and credits its documented return |
| TableRest.OutcomeIsFair | game-state/main.go:872-904 | the outcome compares two strengths: bust below all, five cards above every total, naturals on top |
| TableRest.DealtDealer | game-state/main.go:811-858 | the dealer ends with 17 to 26 in at most twelve cards, or with two when the player is bust |
| TableRest.FinishRests | game-state/main.go:811-939 | the end of a round leaves a table at rest and one more fair round |
| TableRest.ActRests | game-state/main.go:569-939 | every action from a table at rest leaves it at rest: open bets are the ids held, their amounts the bet, the table cleared when waiting, and in the player's turn two to four cards at no more than 20 with one dealer card showing |
| TableMoney.BetPays | game-state/main.go:906-919 | one settlement credits stake and profit, and keeps the cents of the balance |
| TableMoney.SettlePays | game-state/main.go:863-919 | a round of stake S credits S and its profit, doubled or not, and the chips follow |
| TableMoney.ActPays | game-state/main.go:595-939 | every action keeps balance plus stake on the table less profits so far |
| TableRuns.AlwaysAtRest | game-state/main.go:595-939 | over every run in which only the table bets for its player it is at rest between actions, and every round settled was fair |
| TableRuns.RoundEnds | game-state/main.go:647-751 | from n cards, 5 - n hits, stands or doubles end the round, whatever the bank does for others in between |
| TableRuns.BalanceIsProfit | game-state/main.go:687-919 | over every run the balance moves by the profits of the settled rounds and the player's deposits less withdrawals, less the stake on the table |
| TableRuns.CompleteRounds | game-state/main.go:687-919 | from waiting to waiting the balance moves by -S, 0, S or the whole-dollar 3:2 profit per round, besides deposits and withdrawals, and a doubled stake is never settled as blackjack |
| TableRuns.ChipsTrackBalance | game-state/main.go:1117-1169 | once a bet was taken, a whole-dollar balance equals the chips at every rest |
| Auth.StepOneUse | auth-service/index.ts:240-251 | a secret is live, held by one handler, spent on one grant, or lost, after every step |
| Auth.AlwaysChained | auth-service/index.ts:458-717 | in every interleaving codes, enrol tokens and sessions come from a secret of their kind, and only verified players have enrol tokens, credentials and sessions |
| Auth.AlwaysAddressed | auth-service/index.ts:431-466 | in every interleaving a live mailed token belongs to a registered player |
| Auth.OneGrantEach | auth-service/index.ts:458-717 | a mailed token gives at most one code, a code one enrol token, a challenge one session |
| Auth.SessionsAreVerified | auth-service/index.ts:554-717 | every session's player is verified and the session goes back to a challenge |
| Auth.StepOwned | auth-service/index.ts:208-217 | a step keeps "sessions own credentials" if and only if it saves no credential of another player for a player without one |
| Auth.SessionsOwnCredentials | auth-service/index.ts:554-717 | where no such save happens, every session's player is verified and owns a credential row |
| AuthRuns.EnrolmentCompletes | auth-service/index.ts:431-629 | left alone, registration, mail, exchange and ceremony end in a session from any state, with a credential unless its row is taken |
| AuthRuns.EnrolmentSignsIn | auth-service/index.ts:431-629 | and with a session token in the end |
| AuthRuns.LoginDecides | auth-service/index.ts:663-717 | answering a live challenge opens its player's session if and only if the credential presented is the player's own, and uses the challenge up either way |
| AuthRuns.LoginCompletes | auth-service/index.ts:633-717 | a login from its first request on leaves a session and a session token if and only if the credential is the account's own, and nothing otherwise |
| AuthRuns.AnotherPasskey | auth-service/index.ts:510-629 | with a session token the ceremony adds a credential row, unless it is taken, and opens no session |
| AuthRuns.ChallengeLost | auth-service/index.ts:573-578 | a challenge presented with another player's token is lost to its own player too |
| AuthRuns.ExpiredIsLost | auth-service/index.ts:240-251 | a secret that has expired is redeemed by no request |
| AuthRuns.GoneAfter | auth-service/index.ts:240-251 | an expired session is gone, and so is a request that failed |
| AuthRuns.TakenCredential | auth-service/index.ts:208-217 | two enrolments with one credential id: the second player has a session and no credential |
| Csv.ParseCSVRow | document-service/index.ts:161-179 | the loop with its lookahead reads the columns defined by quote parity alone |
| Csv.CutThenJoin | document-service/index.ts:161-179 | every row is its pieces joined by commas, one more than it has separators |
| Csv.CutIsWhole | document-service/index.ts:166-178 | no piece but an unclosed last one has a comma outside quotes or an open quote |
| Csv.JoinThenCut | document-service/index.ts:161-179 | pieces without separators of their own come back from their join |
| Csv.ColumnCount | document-service/index.ts:161-179 | the column count is one plus the commas after an even number of quotes, for every row |
| Csv.ReadsTrimmed | document-service/index.ts:160-179 | reading a row written by section 2 of RFC 4180 gives the fields, trimmed |
| Csv.RoundTrip | document-service/index.ts:160-179 | the reader inverts the writer if and only if no field has outer white space, whichever fields are quoted |
| Csv.BlankBeforeField | document-service/index.ts:171 | before a field exactly the characters ECMAScript counts as white space are dropped |
| Csv.CheckRows | document-service/index.ts:138-150 | reports the first row whose column count is not the header's, and none exactly when all agree |
| Paginator.PageGeometry | document-service/index.ts:256-293 | headers of 20 points, rows of 18, pages from 50 to 722 |
| Paginator.FitIsMaximal | document-service/index.ts:256-293 | row k fits exactly when it ends above the page bottom |
| Paginator.DrawTable | document-service/index.ts:284-335 | headers, rows, shading, page breaks and borders are the greedy layout's, and the text goes on twelve points below |
| Paginator.LayoutSplits | document-service/index.ts:291-324 | pages split the rows in order without loss, middle pages hold 36 rows, with the page count in closed form |
| Paginator.EachRowOnce | document-service/index.ts:291-324 | every row is drawn once and in order |
| Paginator.MarksInOrder | document-service/index.ts:284-333 | the marks are each page's header, rows and border in this order, page after page, and no others |
| Paginator.DrawnInPlace | document-service/index.ts:284-333 | row k of a page is k rows below its header, and each border is as high as its rows moved down |
| Paginator.RowsStayOnPage | document-service/index.ts:293-324 | every row lies wholly between its header and the page bottom |
| Paginator.NoEarlyBreak | document-service/index.ts:293-310 | a page is left only when its next row would not fit |
| Paginator.ParseRows | document-service/index.ts:290-318 | every row of a checked table has one cell per header |
| Bus.EventBus.Subscribe | gateway/main.go:48-54 | a fresh, empty channel joins the clients |
| Bus.EventBus.Unsubscribe | gateway/main.go:56-61 | the channel leaves and is closed, and no client is |
| Bus.EventBus.Publish | gateway/main.go:63-73 | every client is offered the event once; a full buffer drops it |
| Bus.AlwaysOpen | gateway/main.go:48-114 | in every interleaving no send reaches a closed channel |
| Bus.EverythingAccounted | gateway/main.go:48-114 | in every interleaving a client gets no publication twice, and each one begun while it was subscribed was got, met a full buffer or is on its way |
| Bus.PublishCompletes | gateway/main.go:63-73 | after any run without a publication under way, one more that nothing comes between offers its event to every client once, as the class does |
| Bus.ReceivesAll | gateway/main.go:481-498 | a client that keeps receiving gets everything in its buffer in order |
| Bus.ComesAndGoes | gateway/main.go:48-61 | subscribing and unsubscribing left alone change what the class's methods change |
| Bus.ClientsSeeOrder | gateway/main.go:63-114 | with publications one at a time a client gets an in-order part of what it was offered, and all of it while its buffer never fills |
| Bus.PanicsExactly | gateway/main.go:56-61 | a close panics if and only if two calls of Unsubscribe with one client have ended |
| Bus.NoPanic | gateway/main.go:48-73 | no interleaving panics in which no client is passed to Unsubscribe twice, and conversely once all calls have ended |

## Left out

- Decimal.DollarsToCents: what RunCOBOL does with amounts of more than fifteen digits on their way into a program (ACCEPT from the environment) is modelled as a store into the field.
- Numeric.ChargeMatchesRecord: for digits beyond 64 bits of cents, which only a negative exponent lets into a column, the check is sufficient only: `Numeric.WrapCoincides` is a text that fails it and is charged what is stored.
- Bank.TextDecides: likewise beyond fifteen digits of cents; a deposit whose text fails the check is exact only if it has a minus sign and the credit overflows, which is stated in one direction.
- Cobol.CalcPayout: upper-casing is ASCII only.
- Bank.Bank.AccountHandler: an opening balance of "NaN", which the column would take.
- Bank.Bank.BetHandler: account ids are not limited to the hundred characters of their column, and the order of two failing statements is not observable.
- BankInterleaving.Serializable: states the interleaving on the ledger's values; the class `Bank` serves one request at a time.
- TableRuns.BalanceIsProfit: for balances that stay clear of the fifteen-digit limit, which `Ledger.RowIsExact` shows is needed.
- Table.Table.PlayerBet: the shoe exists before the first bet instead of being created by it, and the cards made up for a short shoe are any four given ones.
- Table.Table.CallBankBet: the balance is cut off at its point; for the balances a column holds the float in between is exact enough for that.
- Paginator.DrawTable: column widths, fonts and text within a cell, and what PDFKit itself does near the end of a page.
- Bus.EventBus.Publish: the class runs one operation at a time; locks and overlapping operations are in the state machine beside it.
- Auth.AlwaysChained: email uniqueness, counters, cookies and the `/dev` endpoints, which hand out tokens by design.
- Ranks other than the thirteen and the hidden card, and evaluator or bank outages with their fallbacks.
- Actions of one table that overlap: the action handler answers before it acts.
- The demo loop, server-sent events, Redis publishing, HTTP, JSON and TLS.
- The balance query of a starting table: it expects a number where the bank sends text, so it never refreshes the chips.
- Reshuffling and penetration of the shoe, promised in the deck contract and absent from the code.
- Email, chat, observability and the user interface.
