# Cloud-mining dashboard: ledger and account store

A Dafny model of the logic inside the `App` component of a browser dashboard that
simulates a Bitcoin cloud-mining subscription. Users register and sign in against a
registry kept in the browser's local store, start mining contracts from a fixed
catalog of four plans (one free, three paid through a simulated checkout), and watch
earnings accrue. Earnings are a closed-form function of the whole days elapsed since
the contract started, clamped at the contract's total value, plus a counter that a
3-second timer bumps for every active contract.

Modules:

- `Plans` (plans.dfy): the `Plan` record, the shipped catalog `MiningPlans`, and the
  `find`-by-id lookup `FindPlan`.
- `Ledger` (ledger.dfy): the `Contract` record, `DaysElapsed`, `CalculateEarnings`,
  one accrual tick (`TickContract`, `TickList`), the dashboard aggregates
  (`TotalDailyEarnings`, `TotalEarned`) and the progress bar value `Progress`.
- `Accounts` (accounts.dfy): the `User` record, sign-in lookup `FindUser`, the
  sign-up conflict lookup `FindClash`, and the registry invariant `AccountsUnique`.
- `App` (store.dfy): the `Store` class holding what the component keeps in React
  state and in the local store, with one method per handler.
- `Wrappers` (wrappers.dfy): `Option` and `Result`.

Modelling choices:

- Money is `real`, so the arithmetic is exact. Dates are integer epoch milliseconds,
  and a day is 86,400,000 ms. Dafny's `/` on `int` rounds down for a positive
  divisor, which is `Math.floor` of the quotient.
- The ledger functions take the catalog as a parameter `plans`. Lemmas that need
  non-negative daily earnings and positive durations require `SaneCatalog(plans)`,
  and `ShippedCatalogSane` proves that the shipped catalog satisfies it. The `Store`
  methods use `MiningPlans`, as the component does.
- A stored contract may lack `totalEarned`; the model keeps it as `Option<real>`, and
  `Earned` reads a missing value as 0 (`mining.totalEarned || 0`).
- The local store becomes fields: `users` (the `users` key), `currentUser` (the
  `currentUser` key and the React state, which every handler sets together), and
  `storage` (the `mining_<userId>` keys, indexed by user id). The React list
  `userMining` is the field `userMining`.
- The current time and fresh ids (`Date.now()` in the source) are method parameters.
- The `loadUserMining` effect is modelled as running after each change of session and
  after each contract is stored (`Reload`). Like the source, it only loads when the
  user has a non-empty id and a stored list exists; otherwise the loaded list stays.
- Sign-up checks for a clash field by field: same email, or same username. Sign-in
  matches the identifier against either field. So a new username equal to an earlier
  user's email is accepted, and signing in with it then finds the earlier user.
  `SignInAfterSignUp` states exactly when sign-in finds the new user, and
  `SignInShadowedByEarlierEmail` gives a concrete case. The sign-in identifier is typed
  into the form's email field (`type="email"`), so the browser only submits
  email-shaped identifiers; a username without an `@` cannot reach sign-in.
- The base term and the tick counter both accrue earnings. Over one day of ticks an
  active contract's displayed earnings grow by twice its daily rate while that day lies
  within the contract's duration (`DayOfTicksCountsTwice`); past the end only the
  counter grows, by one daily rate a day (`DayOfTicksAfterEnd`). Past the end date the counter is not clamped, so
  earnings exceed the contract's value (`EarningsExceedContractValue`). Both behaviours
  are modelled as written.

## Model

| member | source | states |
|---|---|---|
| Plans.FindPlan | src/App.tsx:267 | the lookup finds nothing exactly when no plan has the id; whatever it finds is a catalog plan with that id |
| Plans.FindPlanFirst | src/App.tsx:178 | the plan found is the first one in catalog order with that id |
| Plans.FindPlanMember | src/App.tsx:351 | in a catalog with distinct ids, every plan is found by its own id |
| Plans.FindPlanSane | src/App.tsx:375 | in a sane catalog every plan found has non-negative daily earnings and a positive duration |
| Plans.ShippedCatalogSane | src/App.tsx:65-103 | the shipped catalog has distinct ids, non-negative daily earnings and positive durations |
| Plans.CatalogShape | src/App.tsx:65-103 | the catalog has four plans; the first is free and the other three have a positive price |
| Plans.CatalogLookups | src/App.tsx:65-103 | ids "free", "basic", "pro", "enterprise" find plans 0 to 3 |
| Plans.UnknownIdFindsNothing | src/App.tsx:65-103 | every id other than the four shipped ones finds nothing |
| Ledger.BaseEarnings | src/App.tsx:357 | the clamped base term; `BaseEarningsClamp` and `EarningsKnownPlan` state that it is the smaller of days times the rate and the whole contract value |
| Ledger.CalculateEarnings | src/App.tsx:350-360 | `calculateEarnings`; its properties are stated by `EarningsUnknownPlan`, `EarningsKnownPlan`, `EarningsMonotone`, `EarningsAtStart` and `EarningsAfterDuration` |
| Ledger.NewContract | src/App.tsx:273-285 | the contract both creation paths build (also lines 320-332); `NewContractShape` states its shape |
| Ledger.Increment | src/App.tsx:180 | one tick's increment; `TicksPerDay` states that 28,800 of them make one daily rate |
| Ledger.TotalDailyEarnings | src/App.tsx:371-378 | `getTotalDailyEarnings` as filter, lookup and left-to-right sum; `TotalDailyEarningsIsActiveRateSum` relates it to a per-contract sum |
| Ledger.TotalEarned | src/App.tsx:587 | the "Total Earned (USD)" reduce; `TotalEarnedAppend` and `TotalEarnedMonotone` state its properties |
| Ledger.DaysElapsed | src/App.tsx:356 | the result is the floor of the elapsed milliseconds divided by a day: `d * day <= now - start < (d + 1) * day` |
| Ledger.DaysElapsedMonotone | src/App.tsx:356 | whole days elapsed never decrease as `now` grows |
| Ledger.DaysElapsedExact | src/App.tsx:356 | exactly `n` days after the start, `n` whole days have elapsed |
| Ledger.EarningsUnknownPlan | src/App.tsx:351-352 | a contract whose plan is not in the catalog earns 0, whatever its counter |
| Ledger.EarningsKnownPlan | src/App.tsx:356-359 | earnings minus the counter is the smaller of days times the daily rate and the whole contract value |
| Ledger.EarningsMonotone | src/App.tsx:350-360 | for a fixed contract, earnings never decrease as `now` grows |
| Ledger.EarningsAtStart | src/App.tsx:356-359 | at the start date, earnings equal the counter |
| Ledger.EarningsAfterDuration | src/App.tsx:357-359 | once the whole duration has elapsed, earnings are the whole contract value plus the counter |
| Ledger.EarningsExceedContractValue | src/App.tsx:357-359 | past the duration a positive counter makes earnings exceed the whole contract value, since the counter is not clamped |
| Ledger.NewContractShape | src/App.tsx:273-285 | a new contract is active, has earned 0, ends exactly `duration` days after its start, earns 0 at its start and the whole contract value at its end |
| Ledger.BasicPlanScenario | src/App.tsx:76-83 | a basic-plan contract earns 0 on creation, 172 after 10 days and 1548 after 200 days |
| Ledger.TickContract | src/App.tsx:176-185 | a tick changes only `totalEarned`; the counter grows by a day's rate divided by 24 * 60 * 20 for active contracts with a known plan, with a missing counter read as 0, and other contracts are unchanged |
| Ledger.TickList | src/App.tsx:176-185 | the result has the length and order of the input, and each element is the ticked input contract at the same position |
| Ledger.TicksPerDay | src/App.tsx:180-189 | the 3-second interval fires 28,800 times a day, and 28,800 increments add up to exactly one daily rate |
| Ledger.TickNeverDecreases | src/App.tsx:181 | a tick never lowers a contract's counter |
| Ledger.TickRaisesEarnings | src/App.tsx:181 | at every instant a tick raises a known-plan contract's earnings by exactly the tick's gain |
| Ledger.TicksEarned | src/App.tsx:172-189 | after `n` ticks only the counter has changed, and it has grown by `n` times one tick's gain |
| Ledger.DayOfTicksCountsTwice | src/App.tsx:172-189 | within the duration, one day plus one day of ticks raise an active contract's earnings by twice its daily rate |
| Ledger.DayOfTicksAfterEnd | src/App.tsx:172-189 | past the end of the duration, one day plus one day of ticks raise an active contract's earnings by exactly one daily rate, the counter's share |
| Ledger.TotalDailyEarningsIsActiveRateSum | src/App.tsx:371-378 | the daily total equals the sum, over all contracts, of each active contract's plan rate, with 0 for an inactive contract or an unknown plan |
| Ledger.TotalDailyEarningsAppend | src/App.tsx:371-378 | appending a contract adds its rate when it is active and nothing when it is not |
| Ledger.TotalDailyEarningsNonNegative | src/App.tsx:371-378 | the daily total is never negative |
| Ledger.DeactivateRemovesRate | src/App.tsx:373 | deactivating one active contract removes exactly its rate from the daily total |
| Ledger.TickKeepsTotalDailyEarnings | src/App.tsx:176-187 | a tick leaves the daily total unchanged |
| Ledger.TotalEarnedAppend | src/App.tsx:587 | the reduce unfolded at a last element: appending a contract adds its earnings to the total earned (the step `NewContractAggregates` uses) |
| Ledger.TotalEarnedMonotone | src/App.tsx:587 | the total earned never decreases as `now` grows |
| Ledger.TickNeverLowersTotalEarned | src/App.tsx:176-187 | a tick never lowers the total earned |
| Ledger.NewContractAggregates | src/App.tsx:277-289 | a new contract adds its plan's rate to the daily total and nothing to the total earned at its start |
| Ledger.Progress | src/App.tsx:677-686 | a contract whose plan is unknown has no progress (it is not rendered); otherwise progress is at most 100, at least 0 once the start date has passed, 100 exactly when the whole duration has elapsed, and before that equals elapsed days times 100 divided by the duration |
| Ledger.ProgressMonotone | src/App.tsx:685-686 | the progress value never decreases as `now` grows |
| Accounts.NewUser | src/App.tsx:215-221 | the record sign-up creates, with the username as display name; `SignUpKeepsUnique` and `SignInAfterSignUp` state what appending it preserves |
| Accounts.FindUser | src/App.tsx:232-235 | sign-in lookup finds nothing exactly when no user has the identifier as email or username; otherwise it finds the first user that does |
| Accounts.FindClash | src/App.tsx:205-207 | the conflict lookup finds nothing exactly when no user has the same email or the same username |
| Accounts.SignUpKeepsUnique | src/App.tsx:204-223 | appending a user that clashes with nobody keeps "no two users share an email or a username" |
| Accounts.FindUserAppend | src/App.tsx:233-235 | after an append, an earlier match still wins, else the new user is found if it matches |
| Accounts.SignInAfterSignUp | src/App.tsx:204-235 | after sign-up, signing in with the new email or username finds a user, and it is the new user exactly when no earlier user has that identifier in the other field |
| Accounts.SignInShadowedByEarlierEmail | src/App.tsx:205-235 | a username equal to an earlier user's email passes sign-up, and signing in with it finds the earlier user |
| App.Reload | src/App.tsx:144-154 | the list `loadUserMining` leaves loaded: the session user's stored list when the user has an id and one is stored, else the current list |
| App.Store.Restore | src/App.tsx:132-158 | the persisted session is restored and its stored contracts loaded |
| App.Store.LoadUserMining | src/App.tsx:144-154 | the loaded list becomes the session user's stored list when the user has an id and a list is stored, else it is unchanged |
| App.Store.SignUp | src/App.tsx:197-228 | a password mismatch or a clash fails with no change; otherwise exactly one user is appended, the session becomes that user, and the registry invariant is kept |
| App.Store.SignIn | src/App.tsx:230-245 | sign-in succeeds exactly when some user matches, the session becomes the first match and the password is not consulted; on failure nothing changes |
| App.Store.SignOut | src/App.tsx:257-262 | the session and the loaded list are cleared; the registry and stored lists are untouched |
| App.Store.AppendContract | src/App.tsx:287-292 | the contract is appended to the user's stored list, created empty when absent, and the session's list is reloaded |
| App.Store.StartMining | src/App.tsx:264-308 | signed out or unknown plan: no change; free plan: exactly one new contract appended to the user's list; paid plan: only the checkout opens |
| App.Store.HandleCheckout | src/App.tsx:310-347 | with a plan under checkout and a signed-in user, one contract for that plan is appended and the checkout closes; otherwise nothing changes |
| App.Store.AccrueTick | src/App.tsx:169-189 | when the interval is running and a list is stored, the stored list is ticked in place and copied to the loaded list; otherwise nothing changes |

## Left out

- JSX rendering, dialogs, tabs, badges, toast notifications and form resets: presentation.
- The `main.tsx` bootstrap and the unused SDK client.
- JSON serialisation and the local store's failure modes (the `try`/`catch` around
  storing a contract): the store is modelled as in-memory fields that cannot fail.
- Timer scheduling (`setInterval`, the checkout's 2-second `setTimeout`): one tick and
  one checkout completion are plain methods. The checkout timer's capture of the user
  and plan at submission is modelled as the state at completion.
- `App.Store.HandleCheckout`: does not model a second "Confirm Payment" within the
  2-second delay. In the component the dialog stays open and `checkoutPlan` is cleared
  only inside the timer callback, so two presses append two contracts; in the model
  submission and completion are one step that clears the plan, so a second call
  appends nothing.
- The BTC price random walk and every USD-to-BTC conversion (BTC ticker, per-contract
  BTC earnings, hash-rate parsing): random values and floating point.
- Calendar handling: `endDate` is `startDate` plus `duration` times 86,400,000 ms;
  a local-time `setDate` across a daylight-saving change can differ by an hour.
- `createdAt` and the contract dates are epoch milliseconds rather than ISO strings.
- The checkout form's displayed amount (`checkoutForm.amount`): display only.
- The count of running contracts on the dashboard (`filter(...).length`): display only.
- `Ledger.Progress`: requires a sane catalog, since a zero duration would divide by
  zero; the shipped catalog has positive durations.
- JavaScript number semantics: `|| 0` reading NaN as 0, float rounding of
  `dailyEarnings / 24 / 60 / 20`.
