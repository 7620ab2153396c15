# OpenLEG money path: a verified model

OpenLEG bills the members of a local electricity community (LEG). This project
models the exact arithmetic of that path, from meter readings to the invoice a
member opens, together with the density clustering that proposes communities,
and proves what the repository relies on. Everything is checked by
`dafny verify dfyconfig.toml`.

The path, in the order a billing period takes it:

* **Readings** (`Readings`, `Frames`, `Loading`): the data-quality gate reports
  nothing exactly when the rows are a one-to-one cover of the declared series
  and the quarter-hour grid, and nothing is lost between rows, columns and VNB
  totals.
* **Rounding certificate** (`Reconciliation`, `Witness`, `Search`,
  `SourceGroups`, `Audit`, `EinfachAudit`, `SourceCertificate`, `SourceWitness`,
  `SplitWitness`): the grid operator (VNB) rounds three channels per meter. A
  decision procedure looks for one exact proportional allocation behind all
  rounded cells. It is sound, it finds every explanation by the ratios 0 and 1,
  it calls a refusal a disagreement exactly when there is nothing to search, and
  it never calls an honestly rounding VNB one. A whole delivery is certified
  quarter hour by quarter hour, under either model, or refused at the first one
  without a witness; what that says is stated over the delivered records.
* **Engine** (`Allocation`, `MemberBill`, `EngineColumns`, `LineItems`,
  `BatterySource`, `BatteryAttribution`, `Proration`, `CostShares`): the two
  allocation models, what each member is billed under them, producer credits, the
  period columns they add up to, the zero-sum ledger,
  largest-remainder attribution to a shared battery, and the battery's annual
  cost prorated over calendar years of unequal length.
* **Approval** (`Approval`, `LedgerApproval`, `VnbReconciliation`,
  `BilledSource`, `BatteryApproval`, `Invoices`, `DraftApproval`,
  `CertifiedDraft`, `LoadedDraft`, `BatteryDraft`, `BalancedRefusal`): the
  fail-closed gate, the re-check of a draft against its accepted delivery, the
  proof that the gate accepts the ledger of the engine's own allocation, and the
  verdict on whole drafts: from loaded rows, from a certified delivery, and from
  the readings of a period with a battery.
* **Display** (`MemberView`): the member's view re-validates a frozen invoice;
  it shows what approval froze exactly when a date condition holds, and the
  invoices together conserve the money of the draft.
* **Run and archive** (`Runner`, `ArchiveValues`, `Archive`, `ArchiveStore`):
  one immutable draft per window however often a run is repeated; restores that
  insert or verify, all or nothing.
* **Clustering** (`Clustering`): a growing worklist computes the one DBSCAN
  labelling.

Conventions. kWh and CHF are exact reals. From the ledger on, quantities are
counted in millionths of a kWh and money in millionths of a CHF, so quantity
times price is an amount and six decimals are whole numbers. Decimal's
`ROUND_HALF_UP` (half away from zero) and Python's `round` (half to even) are
separate functions. Identifiers are integers in the order of the strings they
stand for. Interval instants are integers; wall-clock windows are a year and an
offset into it.

## What the proofs found

Five promises hold only under a condition; each is proved with its condition and
a concrete case in which it fails.

* "Unresolved" is not only a rounding boundary. The search calls a refusal a
  disagreement exactly when neither side can be searched at all; 10 kWh produced
  and shared against a consumer's 5 kWh of which 2 are shared has no explanation
  at any ratio and is answered "unresolved" (`Search.RefusalExact`,
  `Search.StuckExact`, `Search.TenAgainstTwoIsUnresolved`).
* Approval tests neither that the window crosses a local midnight nor that it is
  over by the issue date, but the member view requires both
  (`MemberView.FrozenIsDisplayed`, `MemberView.EarlyApprovalIsNotDisplayed`).
* The engine rounds the value of battery energy twice (six decimals, then
  cents), approval once. They differ exactly on amounts less than half a
  millionth of a CHF below a half cent, and such a draft is refused
  (`BatteryApproval.ValuesAgree`, `BatteryApproval.HalfCentRefusal`).
* A consumer's battery part is capped at its rounded line. What the caps take
  is lost to the attribution, and the draft is refused unless the credit less
  the loss still rounds to the credited line
  (`BatteryAttribution.TargetReachesLine`). With the half-cent condition that is
  all that decides a battery draft that claims no certificate and bills figures
  of the VNB at which the engine arrived too; one with a certificate is always
  refused (`BatteryDraft.BatteryDraftIsApproved`, `DraftApproval.CertifiedHasNoBattery`).
  It is refused in a period that balances everywhere: 1 Wh from the battery to
  three equal members in one quarter hour, 1 Wh from a solar plant to seven
  others in the next, billed in whole millionths of a kWh
  (`BalancedRefusal.BalancedRunIsRefused`).
* Calendar years count as whole years exactly when both ends lie in years of the
  same length or at New Year; from July 2023 to July 2024 they do not
  (`Proration.WholeYears`, `Proration.JulyToJuly`).

The "einfach" split may hand out up to 0.001 kWh less than the community could
absorb, and there is an interval that reaches that bound
(`EinfachAudit.ShortfallIsReached`).

## Model

| member | source | states |
|---|---|---|
| `Reconciliation.MakeCell` | billing_reconciliation.py:41-46 | a reading is accepted iff it is a non-negative whole number of Wh below 100000000 kWh, and then stands for its cell |
| `Reconciliation.CellOf` | billing_reconciliation.py:46 | the cell of a reading holds exactly the non-negative values within half a Wh that round half-up to it |
| `Reconciliation.CellReads` | billing_reconciliation.py:41-46 | the cell of an accepted reading holds exactly the energies that a meter reports as that reading |
| `Reconciliation.Intersection` | billing_reconciliation.py:119-121 | an intersection exists iff some value lies in both cells, and then holds exactly the common values |
| `Reconciliation.TotalBounds` | billing_reconciliation.py:145-148 | values inside half-open ranges sum to a value inside the summed range |
| `Reconciliation.SplitTotal` | billing_reconciliation.py:134-148 | every value of the summed range is a sum of values, one inside each range |
| `Reconciliation.CommonSum` | billing_reconciliation.py:213-218 | two families of ranges whose sums overlap have members with equal sums |
| `Reconciliation.RowBoundsExact` | billing_reconciliation.py:153-167 | a ratio lies strictly between a row's pairwise bounds iff the row's three scaled ranges have a common value |
| `Reconciliation.BoundsExact` | billing_reconciliation.py:151-168 | a ratio lies strictly between the accumulated bounds iff every row's local range at that ratio is non-empty |
| `Witness.ZeroExact` | billing_reconciliation.py:124-131 | the zero test holds iff an exact allocation with ratio 0 explains all cells |
| `Witness.FullExact` | billing_reconciliation.py:134-148 | for two non-empty sides, the overlap of the fully used ranges holds iff an allocation with ratio 1 explains all cells |
| `Witness.EmptySide` | billing_reconciliation.py:143-144 | an interval with an empty side is explained only if the zero test accepts it |
| `Witness.LocalRangeExact` | billing_reconciliation.py:186-195 | the local values in a row's range are exactly those of unrounded meters that share at the ratio |
| `Witness.PartialExact` | billing_reconciliation.py:171-203 | strictly between 0 and 1 the loop's test on a midpoint holds iff an exact allocation with that ratio exists |
| `Search.RangeGrows` | billing_reconciliation.py:186-195 | both ends of a row's local range are monotone in the ratio |
| `Search.TotalGrows` | billing_reconciliation.py:184-195 | both allocation bounds are monotone in the ratio |
| `Search.FeasibleConvex` | billing_reconciliation.py:171-203 | the explaining ratios form an interval |
| `Search.RatioBounds` | billing_reconciliation.py:151-168 | the loop computes the exact bounds of the admissible ratios |
| `Search.AllocatedRange` | billing_reconciliation.py:182-195 | the inner loop computes the summed local ranges at a ratio |
| `Search.Bisect` | billing_reconciliation.py:181-203 | the loop computes the repeated halving whose answers `BisectExact` describes |
| `Search.BisectExact` | billing_reconciliation.py:181-203 | a returned ratio is feasible; without one all feasible ratios lie closer together than the initial width over 2 to the number of steps; no halving drops a feasible ratio |
| `Search.StepsExact` | billing_reconciliation.py:20 | the halvings divide the initial width by 2 to the 128 |
| `Search.PartialAllocation` | billing_reconciliation.py:171-203 | the method computes the outcome whose three answers `PartialMeans` describes |
| `Search.PartialMeans` | billing_reconciliation.py:171-203 | a found ratio has an exact allocation; "none" is answered iff a row cannot be used up, a side is missing or the row bounds cross; exhaustion bounds the width of what is left |
| `Search.StuckExact` | billing_reconciliation.py:171-177 | two non-empty sides have nothing to search iff a row cannot be used up or no ratio suits every row of the other side |
| `Search.StuckHasNone` | billing_reconciliation.py:171-177 | with nothing to search no ratio strictly between 0 and 1 has an allocation |
| `Search.IntervalWitness` | billing_reconciliation.py:206-235 | the method computes the verdict described by the six lemmas that follow |
| `Search.SimpleFirst` | billing_reconciliation.py:206-221 | an explanation by ratio 0 or 1 is found iff there is one, ratio 0 first, production before consumption |
| `Search.WitnessIsSound` | billing_reconciliation.py:206-232 | a certificate is an exact allocation |
| `Search.RefusalExact` | billing_reconciliation.py:222-235 | a refusal is a disagreement iff no simple ratio explains and both sides are stuck, and then nothing explains at any ratio; otherwise it is unresolved and each side is unexplained or narrow |
| `Search.ProductionBeforeConsumption` | billing_reconciliation.py:222-232 | the consumption side is certified in between only if the production side is unexplained or narrow |
| `Search.TenAgainstTwoIsUnresolved` | billing_reconciliation.py:222-235 | an interval no ratio explains that is answered unresolved |
| `Audit.VerdictMeans` | billing_reconciliation.py:206-235 | certified is explained, a disagreement is not, an unresolved interval has no simple explanation and is stuck on one side at most |
| `Audit.AuditGroups` | billing_reconciliation.py:340-343 | certified iff every interval is, with the verdict of each; otherwise the refused moment is the earliest one without a witness, and the refusal its verdict |
| `Audit.AuditProportional` | billing_reconciliation.py:334-363 | refused as a source iff the delivery is not an accepted exact cover; otherwise certified iff every quarter hour has a witness, or refused with the verdict of the first that has none; the SourceWitness rows below say what each verdict means for the delivered records |
| `Audit.VerdictsMean` | billing_reconciliation.py:334-363 | what the verdict on a quarter hour says about its readings |
| `SourceWitness.RecordsMean` | billing_reconciliation.py:86-111 | the cells of a quarter hour have an allocation iff there are exact energies behind the three figures of each of its records |
| `SourceWitness.CertifiedRecords` | billing_reconciliation.py:334-363 | behind the records of a certified quarter hour there are exact energies that a meter reports as total, community and grid; one direction leaves nothing over, the other keeps the certificate's ratio, and consumers take what producers give |
| `SourceWitness.DisagreeingRecords` | billing_reconciliation.py:334-363 | behind the records of a disagreement there are none, whichever direction is fully used, at any ratio |
| `SourceWitness.UnresolvedRecords` | billing_reconciliation.py:334-363 | behind those of an unresolved quarter hour there are none at the ratios 0 and 1 |
| `SourceWitness.HonestRecords` | billing_reconciliation.py:206-235 | records that round exact energies of which each side trades one common share are never a disagreement |
| `SourceCertificate.AuditEinfach` | billing_reconciliation.py:301-331 | the equal-split audit of a delivery succeeds iff it is accepted and every quarter hour holds the model's figures, and returns the split of each |
| `SourceCertificate.AuditE66` | billing_reconciliation.py:334-363 | the audit returns the one certificate the delivery determines under the model, or none |
| `SplitWitness.SplitExact` | billing_reconciliation.py:238-298 | the equal-split witness of a quarter hour exists iff no participant has two records of one direction and each record's community and grid figures round the model's part of the readings and the rest |
| `SourceGroups.AllSlots` | billing_reconciliation.py:112-113 | pigeonhole: as many aligned keys inside the period as quarter hours are all quarter hours |
| `SourceGroups.SlotIs` | billing_reconciliation.py:66-69 | a quarter hour of the period is a multiple of 900 seconds inside it |
| `SourceGroups.CollectExpected` | billing_reconciliation.py:70-85 | the expected series are collected iff the mappings are valid |
| `SourceGroups.CollectRecords` | billing_reconciliation.py:86-111 | one pass decides rows, repeats and precision, and groups the channels in record order |
| `SourceGroups.CountsDecide` | billing_reconciliation.py:112-115 | the count of keys and the per-key sets decide the exact cover |
| `SourceGroups.GroupRecords` | billing_reconciliation.py:84-116 | records are grouped iff they are a faithful exact cover |
| `SourceGroups.GroupSource` | billing_reconciliation.py:59-116 | a delivery is grouped iff it is accepted; keys are exactly the quarter hours of the period; SourceWitness.RecordsMean says which figure of which record each cell holds |
| `EinfachAudit.SplitsAgree` | billing_reconciliation.py:253-271 | the audit's einfach split equals the engine's on every interval |
| `EinfachAudit.CreditsAgree` | billing_reconciliation.py:272-281 | the audit's producer credits equal the engine's |
| `EinfachAudit.EinfachInterval` | billing_engine.py:76-94 | nobody is allocated more than it consumes, and the split falls short of what is possible by at most 0.001 kWh, by nothing when it redistributes |
| `EinfachAudit.EinfachBalances` | billing_reconciliation.py:272-281 | credits sum to the allocation and stay within production |
| `EinfachAudit.ShortfallIsReached` | billing_engine.py:84-94 | an interval whose shortfall is exactly the threshold |
| `EinfachAudit.CollectTotals` | billing_reconciliation.py:239-252 | totals per participant and direction are collected iff no series repeats and all are valid |
| `EinfachAudit.CheckCells` | billing_reconciliation.py:282-293 | all channels are compared with the modelled values |
| `EinfachAudit.EinfachIntervalWitness` | billing_reconciliation.py:238-298 | certifies iff every channel's cell holds the modelled value, and what it certifies is the engine's own allocation |
| `EinfachAudit.CertifiedReadings` | billing_reconciliation.py:282-293 | a certified community reading is within half a Wh of the modelled value |
| `Allocation.AllocateEnergy` | billing_engine.py:44-96 | every interval of the result is the model's split of that interval |
| `Allocation.ProportionalRatio` | billing_engine.py:68-74 | the proportional split is one common ratio, its cap never bites, and it hands out the smaller of production and consumption |
| `Allocation.CreditsExact` | billing_engine.py:421-430 | producers are credited within their production, in total exactly what was handed out |
| `Allocation.FirstPass` | billing_engine.py:76-83 | the equal shares hand out no more than the production |
| `Allocation.SecondPass` | billing_engine.py:84-92 | the redistribution hands out all that remains or all that is unfilled |
| `Allocation.EinfachExact` | billing_engine.py:76-94 | the einfach split's bounds per consumer and in total |
| `MemberBill.SplitParts` | billing_engine.py:68-94 | a member gets, under proportional, its consumption times the smaller of supply and demand over demand; under einfach the equal share capped at its consumption, and its ration of what is left if that exceeds 0.001 kWh |
| `MemberBill.ColumnIsCharged` | billing_engine.py:481-534 | a billed column becomes a charge, and a fee if there is one, at its half-even quantity and the half-up amount |
| `MemberBill.ColumnIsCredited` | billing_engine.py:538-557 | a credited column becomes a credit at its half-even quantity and the negative half-up amount |
| `Allocation.HonestVnbExplainable` | billing_reconciliation.py:206-235 | an interval allocated and credited as the engine does, all channels rounded half-up, has an exact allocation behind it |
| `Allocation.ReadingIsAccepted` | billing_reconciliation.py:41-46 | an honestly rounded value is an accepted reading iff it is below 100000000 kWh |
| `Allocation.CertifyHonestVnb` | billing_reconciliation.py:206-235 | such an interval is never answered with a disagreement |
| `EngineColumns.IntervalBounds` | billing_engine.py:44-96 | both models keep an interval's allocation non-negative, within each consumption and in total within production, and the credits sum to it |
| `EngineColumns.ConsumerColumn` | billing_engine.py:416-420 | a consumer's column is the sum of its parts of all intervals, under either model |
| `EngineColumns.ProducerColumn` | billing_engine.py:421-430 | a producer's column is the sum of its shares of what the intervals handed out |
| `EngineColumns.ColumnsAreRows` | billing_engine.py:416-430 | summing by member and then by interval, or by interval and then by member, gives the same energy |
| `EngineColumns.EngineBalances` | billing_engine.py:416-430 | over a period the engine's consumer columns and producer columns have the same total |
| `EngineColumns.EngineSides` | billing_engine.py:416-471 | what the engine bills is balanced and never negative on either side |
| `EngineColumns.EngineLedgerAccepted` | billing_engine.py:442-568 | for both models and all non-negative readings the gate accepts the ledger of the engine's own columns iff there is anybody to bill |
| `EngineColumns.GenerateLines` | billing_engine.py:442-568 | allocates every interval, credits, totals and prices; every consumer is charged and every producer credited the sum of its parts of the readings under the chosen model, in whole millionths of a kWh |
| `EngineColumns.EngineIsMeasured` | billing_engine.py:143-186 | the meter built from the engine's allocation satisfies every bound the battery attribution requires |
| `EngineColumns.MeterIs` | billing_engine.py:143-186 | the meter's figures are the readings of the battery and of all producers, and the model's parts of the battery and of every other member |
| `EngineColumns.EngineCreditsBattery` | billing_engine.py:421-430 | the credit the attribution is measured against is the battery's own column of the engine's credits |
| `Clustering.AddCandidates` | ml_models.py:57-61 | the worklist gains exactly the candidates it does not list, once each |
| `Clustering.Walk` | ml_models.py:52-63 | the final list holds only points next to the seed's component, and every neighbour of its core points; exactly its points not yet in a cluster carry the new label |
| `Clustering.Expand` | ml_models.py:51-65 | one expansion turns a partial labelling into the next |
| `Clustering.ClusterLabels` | ml_models.py:24-67 | the result is a DBSCAN labelling: noise iff no core point is near, core points share a label iff joined by a chain, border points hang on the first cluster near, clusters are numbered by their smallest core point |
| `Clustering.CoreExact` | ml_models.py:32-50 | a core point has at least the minimum number of different points within the radius, itself included |
| `Clustering.FewPointsAreNoise` | ml_models.py:29-31 | the early return for few points meets the same specification |
| `Clustering.CompleteIsDbscan` | ml_models.py:44-67 | a completed partial labelling is a DBSCAN labelling |
| `Clustering.DbscanUnique` | ml_models.py:24-67 | the specification determines every label |
| `LineItems.EmitCharges` | billing_engine.py:484-537 | charges and fees in column order, with their energy total |
| `LineItems.EmitCredits` | billing_engine.py:538-557 | credits in column order, with their total |
| `LineItems.EmitLines` | billing_engine.py:481-568 | the emitted ledger, with one adjustment on the smallest producer iff the rounded amounts do not cancel |
| `Numbers.HalfUpExact` | billing_engine.py:32-37 | money rounds to the nearest whole, ties away from zero, for credits as for charges |
| `Numbers.HalfEvenExact` | billing_engine.py:486-488 | quantities round to the nearest whole, ties to the even neighbour |
| `Approval.ReadLines` | billing_approval.py:261-357 | accepts iff each line has its exact shape and money and no priced line repeats, and accumulates the draft's sums and maps |
| `Approval.RequireWellformed` | billing_approval.py:425-577 | accepts iff the lines are well formed: shapes, conservation of quantity, fees on the billed energy, the one implied residual within its bound |
| `LedgerApproval.AcceptedLine` | billing_approval.py:261-357 | every accepted line has a price of the policy and the amount it gives, shares are not negative, adjustments whole |
| `LedgerApproval.AcceptedFigures` | billing_approval.py:425-577 | charged and credited energy of an accepted draft differ by half a millionth per energy line at most, and with a producer one adjustment takes up their money |
| `LedgerApproval.AcceptedMoney` | billing_approval.py:359-421 | that money is at most the energy's difference at the internal price and half a millionth per line |
| `LedgerApproval.PricingNear` | billing_engine.py:32-37 | n rounded amounts are within n half millionths of the exact price of their quantity |
| `LedgerApproval.RoundedTotals` | billing_engine.py:486-488 | n rounded quantities are within n half millionths of their exact total |
| `LedgerApproval.ResidueBounded` | billing_approval.py:542-545 | the residue of the rounded amounts is within approval's derived bound |
| `LedgerApproval.PoolIsZeroSum` | billing_approval.py:359-421 | with a producer, charges, credits and adjustment of an accepted draft sum to zero |
| `LedgerApproval.BatteryShareKeepsGate` | billing_approval.py:469-470 | with a payable cost-share line a draft is accepted iff it was without, or had no line at all |
| `LedgerApproval.LedgerAccepted` | billing_engine.py:475-568 | for balanced billed columns and in-domain prices the gate accepts the emitted ledger iff there is anybody to bill; EngineColumns.EngineLedgerAccepted discharges the balance for the engine's own columns |
| `Invoices.CollectShares` | billing_approval.py:704-731 | the shares are collected iff each is due, at the frozen amount, once per member |
| `Invoices.RequireCostShares` | billing_approval.py:654-731 | accepts iff exactly the billed members except the battery pay their frozen share |
| `Invoices.PrepareInvoices` | billing_approval.py:773-991 | one invoice per billed participant, in order, iff window, policy, lines and shares are approvable; each asks what InvoiceAsks says |
| `Invoices.InvoiceAsks` | billing_approval.py:852-991 | an invoice holds its participant's lines; net is their sum and VAT the rate of net, each the nearest whole cents with ties away from zero; gross is net and VAT; it is due the policy's days after issue and names the producers the provenance names |
| `Invoices.SharesExact` | billing_approval.py:704-731 | whoever pays a share pays its due, exactly and once; every billed member but the battery does, and nobody without a battery |
| `Invoices.PolicyLimits` | billing_approval.py:749-770 | payment within 1 to 365 days, VAT up to 100 percent or none, no negative price |
| `Invoices.SortedCovers` | billing_approval.py:853 | the invoiced participants are exactly the billed ones, without repetition |
| `Invoices.Partition` | billing_approval.py:853-857 | the invoices' lines are the draft's lines, as a multiset and in total |
| `MemberView.LinesAreShown` | member_invoices.py:142-224 | every approved line passes the view's own line checks |
| `MemberView.KindsAreDistinct` | member_invoices.py:236-244 | no approved invoice repeats a kind of line |
| `MemberView.RoundingIsShown` | member_invoices.py:245-290 | an approved residual is the one the frozen proof names, on the smallest producer |
| `MemberView.FrozenIsDisplayed` | member_invoices.py:540-614 | a frozen invoice is displayed iff its window crosses a local midnight and its last covered day is not after the issue date |
| `MemberView.EarlyApprovalIsNotDisplayed` | member_invoices.py:597-614 | a two-day draft approved on its first day freezes an invoice the view refuses |
| `MemberView.DisplayedMeans` | member_invoices.py:142-290 | a displayed invoice shows the member's own lines at the policy's prices, no kind twice but the adjustment, net and VAT in cents, gross, and the due date |
| `MemberView.InvoicesPartitionLines` | billing_approval.py:853-857 | each line lands in exactly one invoice |
| `MemberView.NetsNearTotal` | billing_approval.py:961-967 | the rounded nets are within half a cent per invoice of the draft's total |
| `MemberView.InvoicesConserveMoney` | billing_approval.py:852-991 | with a producer, the nets sum to fees plus battery shares within half a cent per invoice |
| `MemberView.PoolTotal` | billing_approval.py:359-421 | an accepted draft with a producer charges exactly its fees and battery shares |
| `BatterySource.CheckBattery` | billing_engine.py:147-170 | accepts iff the capacity is positive, charge and discharge never coincide, and some opening charge keeps the measured path inside the capacity plus slack |
| `BatterySource.LevelIsBalance` | billing_engine.py:164-170 | the level after some intervals is what went in less what came out |
| `BatterySource.SpanExact` | billing_engine.py:164-170 | such an opening charge exists iff highest minus lowest level is at most the capacity |
| `BatterySource.RankingIsSorted` | billing_engine.py:199-208 | consumers are ranked by larger remainder, then smaller id |
| `BatterySource.RankingIsPermutation` | billing_engine.py:199-208 | every consumer is ranked exactly once |
| `BatterySource.UnitsFit` | billing_engine.py:195-209 | the units left to hand out are not negative and each finds a consumer with a positive remainder |
| `BatterySource.LargestRemainders` | billing_engine.py:188-212 | whole shares that sum to the rounded total, each its floor or one unit more, the units to the larger remainders and between equal ones to the smaller id |
| `BatteryAttribution.AttributionIsCredit` | billing_engine.py:172-186 | before rounding the consumers' battery parts sum to the battery's producer credit |
| `BatteryAttribution.CreditIsLostToCaps` | billing_engine.py:183-186 | the capped parts never exceed the credit, and reach it iff no cap bites |
| `BatteryAttribution.TargetIsCreditLine` | billing_approval.py:643-651 | if no cap bites, the attributed total is the credited line |
| `BatteryAttribution.WholeIntervalsKeepCaps` | billing_engine.py:183-186 | interval allocations in whole millionths never meet a cap |
| `BatteryAttribution.TargetReachesLine` | billing_engine.py:183-195 | the rounded total after the caps is the credited line iff the credit less the energy lost to the caps stays above half a unit below that line, or on it when the line is even |
| `BatteryAttribution.RoundingSurvives` | billing_approval.py:643-651 | a loss keeps a half-even rounding iff it leaves more than half a unit below the rounded value, or exactly that when it is even |
| `BatteryAttribution.CreditWithinDischarge` | billing_engine.py:421-430 | the battery is never credited more than it discharged |
| `BatteryAttribution.TargetWithinDischarge` | billing_engine.py:222-232 | attributed total, credit line and discharge are ordered, so the unallocated discharge is not negative |
| `BatteryAttribution.SplitLines` | billing_engine.py:214-220 | each line is split into two non-negative sources, the battery's within one millionth of its raw value |
| `BatteryAttribution.AttributeSources` | billing_engine.py:143-233 | attributes iff the battery measurements are explainable, and then keeps all of the above at once, for every allocation within its readings; EngineColumns.EngineIsMeasured shows the engine's is one |
| `BatteryAttribution.CreditIsFromBattery` | billing_engine.py:421-430 | the battery's credit is its part, interval by interval, of everybody's energy |
| `BatteryAttribution.AttributedIs` | billing_engine.py:172-233 | each line splits into whole millionths: from the battery its part of the battery's energy, no more than the line and within one millionth, the rest directly; together the rounded sum |
| `BatteryApproval.RequireEnergySnapshot` | billing_approval.py:580-651 | accepts iff the snapshot balances, covers the consumers, agrees with the approved lines and with the credited and charged quantities |
| `BatteryApproval.ReconciledMeans` | billing_approval.py:580-651 | an accepted snapshot in figures: two sources make up each line, battery energy is worth the price in whole cents, they sum to the credited line, the charge covers the battery's own line |
| `BatteryApproval.TwoRoundings` | billing_engine.py:502-504 | rounding to millionths and then to cents differs from rounding once iff the amount is just below a half cent |
| `BatteryApproval.ValuesAgree` | billing_approval.py:628-635 | the engine's value is the one approval expects iff it is not just below a half cent |
| `BatteryApproval.HalfCentRefusal` | billing_approval.py:628-635 | 0.005 kWh at 0.999999 CHF is a cent to the engine and nothing to approval |
| `BatteryApproval.SnapshotAccepted` | billing_approval.py:580-651 | the frozen attribution is accepted iff the credit survives the energy lost to the caps and no value sits just below a half cent |
| `BatteryApproval.WholeIntervalsAccepted` | billing_approval.py:580-651 | with whole-millionth intervals only the half-cent condition remains |
| `VnbReconciliation.ReconcileWithVnb` | billing_readings.py:494-574 | the quantities of one side's report: rounded gaps in total and per participant |
| `VnbReconciliation.RequireCanonical` | billing_approval.py:175-258 | accepts iff the report is truthful, covers the billed participants and names the billed quantities |
| `VnbReconciliation.CanonicalMeans` | billing_approval.py:146-258 | every billed participant has an entry with the figure it is billed, the VNB's under a certificate, else the engine's; gaps are truthful, and zero without a certificate |
| `VnbReconciliation.ReportAccepted` | billing_approval.py:146-258 | a run's report is accepted iff every participant is billed the VNB's figure and, without a certificate, the engine priced that figure too |
| `Readings.ParticipantMap` | billing_readings.py:102-142 | silent iff every point is billable; maps and declarations are those of the last entry per point |
| `Readings.MappingExact` | billing_readings.py:102-129 | a point is mapped to the building of its last confirmed entry |
| `Readings.DeclarationsExact` | billing_readings.py:130-142 | a point declares the directions of its last billable entry |
| `Readings.CheckRow` | billing_readings.py:152-263 | silent iff the row is clean and new; which rows count as seen |
| `Readings.CheckSeries` | billing_readings.py:277-308 | silent iff the series covers a non-empty grid |
| `Readings.CheckGaps` | billing_readings.py:268-308 | silent iff no declared series has a gap |
| `Readings.CheckRows` | billing_readings.py:145-265 | silent iff rows are clean, distinct and without gaps |
| `Readings.CleanMeans` | billing_readings.py:152-253 | a clean row is a 15-minute row of a mapped point, on the grid, in a declared direction, with total and community figures and no negative one |
| `Readings.DistinctRows` | billing_readings.py:255-263 | rows are distinct iff no two share point, direction and moment |
| `Readings.RowStep` | billing_readings.py:255-263 | one more row keeps the rows clean and distinct iff it is clean and its key unseen |
| `Frames.SilenceIsExactCover` | billing_readings.py:145-308 | if no problem is reported, rows and declared series times intervals correspond one to one |
| `Frames.CoverMeans` | billing_readings.py:145-308 | there is exactly one row for each declared point, direction and moment |
| `Frames.GridExact` | billing_readings.py:93-99 | the grid is every quarter hour that ends inside the window |
| `Frames.ExactCoverCount` | billing_readings.py:268-308 | so there are as many rows as declared series times intervals |
| `Frames.PartsAddUp` | billing_readings.py:443-458 | a partition of the rows partitions every sum over them |
| `Frames.ColumnIsSumOfRows` | billing_readings.py:443-455 | a participant's cells over all intervals sum to its rows |
| `Frames.CommunityIsSumOfMembers` | billing_readings.py:322-325 | the participants' totals sum to the community's |
| `Loading.Aggregate` | billing_readings.py:431-458 | every frame cell is the sum of the metered totals, every VNB total the sum of the community figures, of the rows that belong to it |
| `Loading.AggregatesHold` | billing_readings.py:431-458 | sums over rows by field: total_kwh into the frames, community_kwh into the VNB totals |
| `Loading.BillableParticipants` | billing_readings.py:430 | the participants are the mapped buildings, sorted, once each |
| `Loading.VnbReference` | billing_readings.py:320-365 | silent iff the two VNB totals are equal; bills the figures at six decimals |
| `Loading.FrameColumn` | billing_readings.py:443-455 | each frame column totals the rows of its participant and direction |
| `Loading.CommunityTotal` | billing_readings.py:322-325 | the VNB totals of all participants sum to all rows of the direction |
| `Loading.BilledSidesBalance` | billing_engine.py:442-459 | deliveries of at most six decimals are billed unrounded, and balance iff the delivery does |
| `Loading.LoadPeriodFrames` | billing_readings.py:368-491 | loads exactly the periods whose readings are an exact cover and whose VNB totals balance; frames hold the metered totals, VNB totals the community figures |
| `Proration.PeriodFraction` | quartierakku.py:234-264 | defined iff start is before end; the year-by-year loop ends at the difference of the two calendar positions |
| `Proration.PositionIs` | quartierakku.py:254-263 | an instant counts its year and the share of that year's 365 or 366 days of 86400 seconds |
| `Proration.DaysBeforeCount` | quartierakku.py:254-263 | the Gregorian count of days before a year |
| `Proration.WallClockIs` | billing_approval.py:773-800 | wall time counts microseconds from the first day of the calendar |
| `Proration.MonthLengths` | quartierakku.py:234-264 | months have 28 to 31 days, February 29 in leap years |
| `Proration.WindowsAddUp` | quartierakku.py:234-264 | consecutive windows add up to the window they span, for chains of any length |
| `Proration.FractionIsPositive` | quartierakku.py:251-252 | the fraction is positive iff the window is |
| `Proration.WholeYears` | quartierakku.py:254-263 | k calendar years count exactly k iff both years have the same length or both ends are New Year |
| `Proration.JulyToJuly` | quartierakku.py:254-263 | from 1 July 2023 to 1 July 2024 is not one year |
| `Proration.ClockOrder` | quartierakku.py:251-252 | the calendar position orders instants as wall time does |
| `CostShares.ValidateConfig` | quartierakku.py:78-126 | accepts iff capacity, cost and shares are in range, the shares make 100 percent, and the battery itself pays none |
| `CostShares.ConfigLimits` | quartierakku.py:78-126 | capacity above zero up to 10000 kWh, cost up to 100000 CHF, in hundredths; some shares, none for the battery |
| `CostShares.BatteryLines` | billing_runner.py:50-108 | lines exist iff the configuration is valid, covers the participants and the window is increasing; each is the prorated share |
| `CostShares.DueIsShare` | quartierakku.py:267-276 | a member owes its percentage of the annual cost for the fraction of the year, to the nearest millionth |
| `CostShares.ShareLinesAre` | billing_runner.py:66-93 | one line per participant except the battery, at the amount due |
| `CostShares.BilledSharesAreCovered` | billing_approval.py:690-731 | the lines a run bills pass approval's share check |
| `CostShares.RoundedSum` | quartierakku.py:267-276 | n rounded amounts are within n half millionths of their exact sum |
| `CostShares.SharesPayTheCost` | quartierakku.py:267-276 | the prorated shares sum to the prorated annual cost within half a millionth per member |
| `DraftApproval.ApproveDraft` | billing_approval.py:773-991 | freezes the invoices iff lines, shares, both reconciliations and the frozen battery are approved and, for a certified draft or an accepted E66 delivery, the delivery confirms the draft; each invoice asks what InvoiceAsks says |
| `DraftApproval.RequireFrozenBattery` | billing_approval.py:654-737 | accepts iff the frozen configuration is valid and names the draft's community, window and fraction are the draft's own, and the energy snapshot reconciles with the lines |
| `DraftApproval.CertifiedHasNoBattery` | billing_reconciliation.py:384-390 | no approved draft has both a certificate and a battery |
| `BilledSource.ValidateBilledSource` | billing_reconciliation.py:366-447 | accepts iff delivery and draft are the same window and inputs, a certificate is the one a second audit gives and there is no battery, both channels balance, billed quantities are the delivery's sums, and both reports are those of an independent run of the engine |
| `BilledSource.CellsAddUp` | billing_readings.py:632-660 | over all moments a participant's cells add up to its share of the delivery |
| `BilledSource.FrameColumnIsShare` | billing_reconciliation.py:398-408 | a column of the delivery's frame totals the participant's share |
| `BilledSource.FrameIsMetered` | billing_readings.py:663-683 | the frame of the independent run holds the metered totals of the delivery |
| `BilledSource.QuantityIsSum` | billing_reconciliation.py:398-422 | a participant's expected quantity is the sum of its community figures |
| `BilledSource.ConsumerFigure` | billing_reconciliation.py:423-434 | a consumption entry sets the VNB's allocation beside the member's part of the readings under the model, each at six decimals |
| `BilledSource.ProducerFigure` | billing_reconciliation.py:423-434 | a production entry sets the VNB's allocation beside the producer's credit under the model |
| `BilledSource.ConfirmedMeans` | billing_reconciliation.py:374-383 | a confirmed draft and its delivery are of one community, one set of inputs and one window |
| `BilledSource.ConfirmedEntry` | billing_reconciliation.py:434-447 | a confirmed draft reports of each participant exactly that entry |
| `BilledSource.UsableMeans` | billing_readings.py:663-683 | every meter of a usable delivery read a known direction and no negative energy |
| `DraftApproval.LedgerLines` | billing_engine.py:481-568 | the billed quantities of a ledger are its rounded columns |
| `DraftApproval.DraftLines` | billing_engine.py:481-568 | the charges and credits of a draft carry the billed six-decimal columns unchanged, share lines included |
| `DraftApproval.SharesKeepGate` | billing_approval.py:425-577 | so it is with any number of payable share lines |
| `DraftApproval.DraftIsApprovable` | billing_approval.py:773-991 | energy ledger plus battery lines of a run are approvable |
| `DraftApproval.PlainDraftIsApproved` | billing_approval.py:773-991 | without a battery, for any figures of the VNB and the engine, a run's draft is approved iff the delivery confirms it where one is asked for, each participant is billed the VNB's figure and, without a certificate, the engine agrees with it |
| `CertifiedDraft.AcceptedIsPrecise` | billing_reconciliation.py:59-116 | every figure of an accepted delivery is a non-negative number of whole millionths, allocated and community figures agree, and there is a record |
| `CertifiedDraft.SourceIsBilling` | billing_engine.py:388-441 | the sums of a delivery in balance can be billed as they are |
| `CertifiedDraft.AgreeingIsEqual` | billing_runner.py:366-376 | readings of at most six decimals that agree with the delivery at six decimals are the delivery's |
| `CertifiedDraft.CertifiedDraftIsApproved` | billing_runner.py:352-420 | an accepted delivery in balance that gets its certificate, under either model, billed by its own channels: the draft passes the second audit, the comparison of quantities, the independent run and every other check |
| `CertifiedDraft.SourceIsCharged` | billing_engine.py:433-441 | lines that bill a delivery charge each participant the sum of its community figures |
| `CertifiedDraft.SourceIsCredited` | billing_engine.py:433-441 | and credit it the same way |
| `CertifiedDraft.ApprovedIsExplained` | billing_reconciliation.py:384-422 | behind an approved draft with a proportional certificate there are exact energies for the records of every quarter hour, and the draft bills the delivery's sums |
| `CertifiedDraft.ApprovedSplitsHold` | billing_reconciliation.py:384-422 | behind one with an equal-split certificate every record rounds the model's part of the readings and the rest, and the draft bills the delivery's sums |
| `LoadedDraft.LoadedIsBilling` | billing_readings.py:320-491 | complete rows of at most six decimals in balance make columns a run can bill |
| `LoadedDraft.BillPeriod` | billing_readings.py:368-491 | loads and bills a period iff its rows are complete and the VNB balances |
| `LoadedDraft.LoadedDraftIsApproved` | billing_runner.py:313-330 | the draft of such rows is approved, whenever no accepted E66 delivery contradicts it |
| `LoadedDraft.LoadedCharges` | billing_readings.py:337-364 | a run on loaded rows charges and credits each participant the sum of its rows' community figures at six decimals |
| `DraftApproval.QuantitiesAreLines` | billing_approval.py:425-577 | the billed map of one kind of line holds exactly the lines' participants and quantities when no participant repeats |
| `BatteryDraft.RunBillsMeter` | billing_engine.py:452-471 | a run whose billed columns round as the engine's bills exactly the allocation the attribution was made from |
| `BatteryDraft.BatteryDraftIsApproved` | billing_approval.py:580-991 | with a battery, from the readings on: a draft is approved iff it claims no certificate, an accepted E66 delivery confirms it if there is one, each participant is billed the VNB's figure at which the engine arrived too, the battery's credit survives the caps, and no value sits just below a half cent |
| `BatteryDraft.SourcedBatteryIsApproved` | billing_runner.py:280-312 | in a period with an accepted E66 delivery whose readings and split the run matched, the delivery confirms the draft, so it is approved iff credit and values survive |
| `BalancedRefusal.RefusedRunIsBalanced` | billing_engine.py:442-471 | the period of three and seven members passes every balance of the engine's run |
| `BalancedRefusal.OneMillionthIsLost` | billing_engine.py:183-195 | there the caps take one millionth and the credited line is missed |
| `BalancedRefusal.BalancedRunIsRefused` | billing_approval.py:643-651 | whatever prices, policy and battery configuration, approval refuses the draft of that period |
| `Runner.PeriodStore.RunBillingPeriod` | billing_runner.py:329-484 | outcome and new store are those of the decision function that FreshWindow and StoredWindow describe; loading and checks are one flag, audit, comparison and fingerprints oracles |
| `Runner.FreshWindow` | billing_runner.py:337-484 | a fresh window gets a draft iff the period is complete and, with a delivery and no battery, certified, else exactly split and any delivery certified; the draft is open, marked and fingerprinted by its pricing |
| `Runner.StoredWindow` | billing_runner.py:337-461 | with a stored draft a run is refused as incomplete, for its allocation, or because neither fingerprint matches, and answered otherwise; only an unmarked einfach draft keeps the split |
| `Runner.DraftsAreImmutable` | billing_runner.py:442-484 | over any history no run alters or removes a draft |
| `Runner.IdsStayUnique` | billing_runner.py:477-484 | over any history draft ids stay unique |
| `Runner.ReplayFindsItsDraft` | billing_runner.py:329-351 | whatever ran in between, the same request finds its own draft and saves nothing |
| `Runner.LegacyDraftIsKept` | billing_runner.py:337-351 | an unmarked einfach draft keeps its pricing basis, and is found again iff its fingerprint, of this or the older shape, matches |
| `Runner.OnlyTheSameInputsAreAnswered` | billing_runner.py:442-461 | once a window has a draft, a request is answered iff it carries the same inputs, the older fingerprint shape included; fingerprints are taken as free of collisions |
| `ArchiveValues.RoundTrip` | community_archive.py:26-55 | of the two recursions alone: a value survives encoding and decoding iff no dictionary in it looks like a tagged scalar |
| `ArchiveValues.NoDictionaryIsUnambiguous` | community_archive.py:26-55 | a value without dictionaries, as every non-JSON column holds, always survives |
| `ArchiveValues.EncodedIsPlain` | community_archive.py:26-39 | an encoded value is plain JSON, and is the value itself iff that was plain JSON |
| `ArchiveValues.DecodeRecord` | community_archive.py:698-719 | a record decodes iff each column does; JSON columns are taken as they are |
| `ArchiveValues.ColumnRoundTrip` | community_archive.py:706-719 | a JSON column survives iff it is plain, any other iff it is unambiguous |
| `ArchiveValues.ArchiveRecord` | community_archive.py:64-91 | a record comes back unchanged iff all its columns are archivable; records with dictionaries only in JSON columns always do |
| `Archive.RestoreKeepsAndAdds` | community_archive.py:779-814 | a restore alters no stored record and leaves every archived one present |
| `Archive.NothingToRestore` | community_archive.py:803-814 | records that are all present restore to the same table |
| `Archive.RestoreIsIdempotent` | community_archive.py:779-814 | restoring twice is restoring once |
| `Archive.SkippedClashes` | community_archive.py:841-862 | a record skipped by the multi-row insert clashes with a stored one for good |
| `Archive.BatchIsRowByRow` | community_archive.py:829-867 | inserting a batch and then comparing it has the outcome of going record by record, secondary unique constraints included |
| `Archive.RowOutcome` | community_archive.py:785-824 | one record, column by column: refused for an unknown column, inserted if neither id nor a unique value is taken, else accepted iff the stored record has every one of its values |
| `Archive.RestoreInParts` | community_archive.py:834-841 | restoring one part after the other is restoring the whole |
| `ArchiveStore.LargestId` | community_archive.py:899-904 | the largest stored id, if any |
| `ArchiveStore.Advance` | community_archive.py:887-914 | the restart value is the old next id or one step past the largest stored id, whichever is larger |
| `ArchiveStore.RestartIs` | community_archive.py:887-914 | the next identifier is past every stored one and past the last one handed out, and no further than one of the two requires |
| `ArchiveStore.AdvanceIsSafe` | community_archive.py:887-914 | the next id exceeds every stored id and never moves back |
| `ArchiveStore.AdvanceIsDetermined` | community_archive.py:887-914 | the restart value is determined, and a second advance keeps it |
| `ArchiveStore.RestoreHoldsAll` | community_archive.py:767-815 | after a restore no prior record differs and all archived records are present, over all tables |
| `ArchiveStore.RestoreTwice` | community_archive.py:767-815 | restoring the same archive again changes no table |
| `ArchiveStore.Store.RestoreRow` | community_archive.py:785-814 | one record is inserted, found unchanged, or refused |
| `ArchiveStore.Store.RestoreRows` | community_archive.py:779-814 | the record-by-record path |
| `ArchiveStore.Store.RestoreBatch` | community_archive.py:841-867 | one batch has the outcome of its records one by one |
| `ArchiveStore.Store.RestoreReadings` | community_archive.py:829-867 | runs of equal columns in slices of 500 have the outcome of the records one by one |
| `ArchiveStore.Store.AdvanceSequences` | community_archive.py:887-914 | exactly the sequences of archived tables advance |
| `ArchiveStore.Store.RestoreCommunity` | community_archive.py:740-815 | succeeds iff sequences fit and every dataset restores; on failure tables and sequences are unchanged |

## Left out

- Binary floats, Decimal context precision, NaN, infinities outside the readings
  gate, and the exponent a Decimal is written with: figures are exact, "at most n
  decimals" is a statement about the value.
- Python truthiness and type checks on fields (strings, dicts, missing keys,
  blank or over-long identifiers, surrounding spaces): the datatypes carry
  well-typed values, and `Option` where the code branches on absence.
- Identifiers as strings, and the order of `str`: integers in that order.
- Time zones and daylight saving: windows are wall-clock, intervals are instants.
  Years beyond the range of `datetime` are not refused.
- `sdat_e66.py` is not part of this model; a reading is a multiple of 0.001 kWh.
- SHA-256 and JSON text: fingerprints are a function, without collisions where a
  lemma says so; `_main_draft_fingerprint`, which prices a draft in the payload
  shape of an older release, is one more such function.
- The stored form of a certificate (version, hash, ratio text) and of its
  intervals: a certificate is its source fingerprint and one witness for each
  quarter hour.
- In the re-check of a delivery: the audit fields that older drafts lack, and the
  imbalance figures among them. A delivery's window is compared as instants, the
  draft's own as wall-clock time; the two are not related. The fallback of
  `calculated_quantity_frames` for deliveries without channels is not modelled,
  as only E66 deliveries are re-checked.
- The magnitude check of `_source_quantities` on sums of meters: a run that
  passes it bills those sums.
- The policy's own form checks: a policy is in its value domain or refused.
- Sorting an invoice's items by their stored id, the lifecycle and registration
  checks, the issuer, and the provenance texts of an invoice. The member view's
  cent-bounded fallback for snapshots without a rounding proof.
- The engine's input checks on prices and frames, and `_billed_quantities`: the
  billed columns are finite, non-negative and cover the participants.
- Network discounts, self-supply ratios and the summary's display figures.
- Wording and order of diagnostics: a problem list is empty or not, a refusal has
  its class.
- SQL, locking, and records without their key columns or with column defaults: a
  store is a map from id to record with secondary unique columns, a transaction
  is all or nothing. `find_conflicts`, the dry run, is not modelled.
- The printed text of archive scalars: any printer and parser that agree.
- Great-circle distance: any reflexive, symmetric relation.
- VnbReconciliation.ReconcileWithVnb: the percentages, the delivered totals and
  the engine-audit fields of the report are display figures and not modelled.
- VnbReconciliation.ReportAccepted: takes the billed lines in the order of the
  report's participants and the engine's figures at six decimals, as a run emits
  both.
- Loading.VnbReference: the imbalance, ratio and per-participant figures of its
  report are not modelled.
- Loading.LoadPeriodFrames: the provenance of the frames is not modelled; with
  calculated figures it leaves the billed split to BilledSource.
- Invoices.RequireCostShares: the frozen window, fraction and configuration are
  re-checked in DraftApproval.RequireFrozenBattery, not there.
- Invoices.PrepareInvoices: reconciliation, delivery, and window and energy of a
  frozen battery are checked in DraftApproval.ApproveDraft, not there.
- MemberView.FrozenIsDisplayed: the view's checks of grid fees, battery sources,
  identity and lifecycle are not modelled.
- Runner.PeriodStore.RunBillingPeriod: loading and validation are one flag, the
  source audit, the exact comparison and both fingerprints are functions of the
  inputs, so of a run only the decisions on the stored draft are modelled.
- Runner.OnlyTheSameInputsAreAnswered: rests on the same functions.
- ArchiveValues.ArchiveRecord: the manifest, the hashes and the version checks
  around the records are not modelled.
- Allocation.AllocateEnergy: the result frame is a sequence reassigned per
  interval, so writing through a shared frame is not captured.
- Search.IntervalWitness: an unresolved interval is bounded, not decided; the code
  itself refuses it.
