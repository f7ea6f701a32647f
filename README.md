# Bankist ledger, in Dafny

Bankist is a single-page bank dashboard (`script.js`). The page holds four demo
accounts in memory. Each account has an owner, a PIN, an interest rate and a list
of signed movements: deposits are positive and withdrawals negative. At start-up
every account gets a username: the lower-cased initials of its owner's name. A
user logs in with a username and PIN. The dashboard then shows the movement
history newest first, the balance, and an "in / out / interest" summary. A
logged-in user can transfer money to another username, or close their own account.

This project models that ledger. It has five modules:

- `Arrays`: the JavaScript array operations the page uses (`filter`, `map`, `join`,
  and `splice` with its negative and missing arguments), as functions on sequences.
- `Ledger`: the figures derived from a movement list (balance, deposits total,
  withdrawals total, interest), and the history rows `displayMovements` produces.
- `Usernames`: ASCII lower-casing, `split(" ")`, and username derivation. It
  includes an independent, character-by-character definition of the username
  ("the lower-cased characters that start a word").
- `Bank`: the `Account` objects and the `Bank` class. `Bank` holds the `accounts`
  array and the `currentAccount` session. It has the start-up, login, transfer and
  close handlers. Each handler is a method that takes its input fields' values as
  parameters.
- `Dogs`: the lecture exercises that have stateable behaviour. These are
  `checkDogs`, which splices its caller's array in place, and the dog-to-human age
  mapping with its adult filter.

State is modelled where the page changes it:

- `Account.movements`, `Account.username` and `Account.balance` are fields that the
  methods update.
- `Bank.accounts` is a `seq<Account>` that transfers mutate through the shared
  account objects and that close splices.
- `Bank.current` is the session.

Every account keeps the same invariant (`Account.Named`, `Account.Sound`):

- its username is the one derived from its owner;
- it has at least one movement;
- its balance is not negative;
- its stored `balance` field, which can be stale, never exceeds the true sum.

`Bank.Valid` states this invariant for every account in the list and for the
session account. Every handler preserves it.

Where the code and its description disagree, the model follows the code:

- **Login sets the session whatever the PIN.** The login handler assigns
  `currentAccount` to the account found before it checks the PIN
  (script.js:134-138). A wrong PIN therefore still changes the session; only the
  welcome message and the dashboard refresh depend on the PIN. `Bank.Bank.Login`
  states exactly that.
- **The transfer guard reads the stored balance.** It compares against
  `currentAccount.balance`, the stored figure, not the sum of the movements
  (script.js:168). If the session account has never been shown (a login with a
  wrong PIN), the stored balance is `undefined` and that first transfer is
  refused. A refused transfer still runs `updateUI` on the session account
  (script.js:175), which stores its balance, so the next transfer goes through
  (see "## Findings"). The invariant "stored ≤ true sum" is what makes the guard
  safe against overdrafts: a transfer never overdraws the sender.
- **Close keeps the session.** After a close the session still names the closed
  account. `findIndex` looks for the first account whose username is the
  session's (script.js:185-187), and `splice(index, 1)` removes the account at
  that index (script.js:188). The index is the session account's own only when
  no earlier account shares its username. Usernames are initials, so that can
  happen ("Jonas Smith" and "Jane Sims" both give "js"). When no account has
  that username any more, for instance on a second close, `findIndex` gives -1
  and `splice(-1, 1)` removes the last account in the list. `Bank.Bank.Close` is
  stated by index, so it covers all of these cases.
- **Handlers need a session.** With no session, the close handler throws a
  TypeError on `currentAccount.username` (script.js:182). The transfer handler
  throws a TypeError on `currentAccount.balance` (script.js:168) when the amount
  is positive and the receiver exists. Otherwise its guard short-circuits first,
  and the TypeError comes from `updateUI(currentAccount)` (script.js:175, 124).
  The model makes both handlers do nothing.

## Model

| member | source | states |
|---|---|---|
| Arrays.Filter | script.js:90-92 | `filter` keeps only elements satisfying the predicate, drops none that satisfy it, and never grows the list |
| Arrays.FilterAppend | script.js:90-92 | filtering a concatenation is the concatenation of the filtered parts, so order and repeats are kept |
| Arrays.FilterSingleton | script.js:90-92 | filtering no element gives none, and filtering one element keeps it exactly when it satisfies the predicate; with `FilterAppend` this fixes `filter` on every array |
| Arrays.Map | script.js:103 | `map` keeps the length and applies the function at every position |
| Arrays.JoinEnds | script.js:117 | `join` of no pieces is ""; otherwise the result starts with the first piece and ends with the last |
| Arrays.JoinEmptyIsConcat | script.js:117 | `join("")` of a non-empty list is the first piece followed by the join of the rest |
| Arrays.SpliceStart | script.js:188 | `splice`'s start index: never past the end; a non-negative start in range is kept; a start past the end becomes the length; a negative start counts back from the end, and one before the front becomes 0 |
| Arrays.Splice | script.js:188 | `splice(start, n)` keeps everything before the start and the whole tail after the removed run. It removes `n` elements when they exist, everything from the start when `n` is missing or more than remain, and nothing for a negative `n` |
| Arrays.SpliceKeepsOnlyElements | script.js:188 | a splice leaves only elements that were already in the array |
| Arrays.SpliceOneAt | script.js:188 | `splice(k, 1)` at a valid index removes exactly element k: the length drops by one, earlier elements stay in place, later ones move down by one |
| Arrays.SpliceMinusOne | script.js:188 | `splice(-1, 1)` removes the last element, and leaves an empty array empty |
| Arrays.SpliceFound | script.js:185-188 | `splice(k, 1)` with an index `findIndex` can return removes element k, or the last element for -1 |
| Ledger.SumAppend | script.js:171-172 | appending a movement adds its amount to the sum |
| Ledger.Reduce | script.js:92 | `reduce((acc, x) => acc + x, init)` is `init` plus the sum of the list |
| Ledger.Balance | script.js:85 | the balance exists exactly when there is at least one movement (`reduce` with no initial value throws on an empty list), and then it is the sum of the movements |
| Ledger.BalanceOfSample | script.js:85 | the movements [200, -200, 340, -300] have balance 40 |
| Ledger.TotalDeposits | script.js:90-92 | the "in" figure is the sum of the strictly positive movements |
| Ledger.TotalWithdrawals | script.js:96-98 | the signed "out" figure is the sum of the strictly negative movements |
| Ledger.SummaryAddsUp | script.js:90-98 | total deposits plus total withdrawals is the balance |
| Ledger.TotalsSigns | script.js:90-98 | total deposits is ≥ 0, and 0 exactly when there is no deposit; total withdrawals is ≤ 0, and 0 exactly when there is no withdrawal |
| Ledger.Abs | script.js:99 | `Math.abs` is non-negative and is the number or its negation |
| Ledger.PercentAdds | script.js:103 | `d * rate / 100` distributes over addition |
| Ledger.PercentNonNegative | script.js:103 | a non-negative deposit at a non-negative rate earns non-negative interest |
| Ledger.SumRealNonNegative | script.js:105 | the sum of non-negative interest payments is non-negative |
| Ledger.SumRealFilterAtMost | script.js:104-105 | dropping payments below 1 never increases the total interest |
| Ledger.SumRealScaled | script.js:103-105 | the total of the per-deposit interest is the rate applied to the deposits total |
| Ledger.Interest | script.js:101-105 | at a non-negative rate, interest is between 0 and the rate applied to total deposits |
| Ledger.AccountSummary | script.js:89-107 | "in" is the deposits total and "out" the negated withdrawals total; both are ≥ 0; in − out is the balance; interest is bounded as in `Interest` |
| Ledger.TypeOf | script.js:68 | a movement is labelled deposit exactly when it is > 0, and withdrawal exactly when it is ≤ 0 |
| Ledger.DisplayMovements | script.js:64-81 | one row per movement, newest first; the row for movement i is numbered i + 1; it is labelled deposit exactly when the amount is > 0, otherwise withdrawal (0 included) |
| Usernames.LowerLetters | script.js:114 | `toLowerCase` keeps the length, leaves no upper-case ASCII letter, keeps every other character, and maps each upper-case letter to its lower-case one |
| Usernames.Initial | script.js:116 | the first letter of a piece: at most one character, none exactly for an empty piece, otherwise the piece's first character |
| Usernames.FirstName | script.js:139 | the name in the welcome text is the longest space-free prefix of the owner: it has no space and is followed by a space or by the end |
| Usernames.Split | script.js:115 | `split(" ")` gives at least one piece, no piece contains the separator, and joining the pieces with the separator gives back the string |
| Usernames.SplitJoin | script.js:115 | splitting a join of separator-free pieces gives back the pieces |
| Usernames.SplitNoSeparator | script.js:115 | a string without the separator splits into itself alone |
| Usernames.SplitAfterPiece | script.js:115 | splitting `w + sep + t` gives `w` followed by the split of `t` |
| Usernames.InitialsAreWordStarts | script.js:115-117 | joining the first characters of the split pieces gives exactly the characters that start a word (the first character and every character right after a space) |
| Usernames.WordStartsLower | script.js:114 | lower-casing first or afterwards picks out the same word-start characters |
| Usernames.UsernameIsWordStarts | script.js:113-117 | the username is the lower-cased word-start characters of the owner's name |
| Usernames.LowerJoin | script.js:114-115 | lower-casing a join is the join of the lower-cased pieces, for a separator that lower-casing leaves unchanged |
| Usernames.JoinLetters | script.js:117 | joining one-letter strings with "" gives those letters in order |
| Usernames.UsernameOfWords | script.js:113-117 | for non-empty words joined by single spaces, the username has one letter per word: the lower-cased first letter of that word |
| Bank.Fixtures | script.js:8-36 | there are four demo accounts, with pairwise different owners and PINs and positive interest rates |
| Bank.FixturesAreSound | script.js:8-36 | every demo account has movements and a non-negative balance |
| Bank.FirstFixtureIsSound | script.js:10 | Jonas Schmedtmann's movements add up to 3840 |
| Bank.SecondFixtureIsSound | script.js:17 | Jessica Davis's movements add up to 11720 |
| Bank.ThirdFixtureIsSound | script.js:24 | Steven Thomas Williams's movements add up to 10 |
| Bank.FourthFixtureIsSound | script.js:31 | Sarah Smith's movements add up to 2270 |
| Bank.FixtureIsSound | script.js:8-34 | each demo account has movements and a non-negative balance |
| Bank.Startup | script.js:8-36 | page load gives a valid bank whose accounts are the four demo accounts in order: distinct objects with their owners, movements, rates and PINs, derived usernames, no stored balance, and nobody logged in |
| Bank.NewAccounts | script.js:8-36 | one fresh account object per entry of the data, in order, each carrying that entry's data |
| Bank.Account.constructor | script.js:8-34 | an account object carries its demo data, with no username or balance yet |
| Bank.HealthyAfterSplice | script.js:188 | splicing the account list keeps every remaining account's invariant |
| Bank.IndexOfMember | script.js:185-187 | `findIndex` by an account's own username, when that account is in the list, finds something |
| Bank.IndexOfUser | script.js:185-187 | `find`/`findIndex` by username gives the first matching index, or -1 exactly when no account has that username |
| Bank.CreateUserNames | script.js:111-119 | after the loop, every account's username is derived from its owner |
| Bank.UpdateBalance | script.js:84-87 | the stored balance becomes the sum of the movements |
| Bank.Deliver | script.js:171-172 | the sender gets `-amount` appended and the receiver `amount`; the sender's sum drops by the amount and the receiver's rises by it |
| Bank.UpdateUI | script.js:123-127 | after the refresh, the stored balance is current and the view shows the account's own newest-first rows, balance and summary |
| Bank.Bank.Find | script.js:134-136 | `accounts.find` by username gives the account at the first matching index, or null exactly when there is none |
| Bank.Bank.constructor | script.js:111-121 | the account list mirrors the data in order, with distinct objects, derived usernames, no stored balances and nobody logged in |
| Bank.Bank.Permits | script.js:165-170 | a transfer the guard lets through has a session, a positive amount and an existing receiver other than the sender, and never exceeds a sound sender's balance |
| Bank.Bank.Login | script.js:130-150 | see below |
| Bank.Bank.LoginChecked | script.js:134-138 | the intended login: the session moves only to the found account with a matching PIN; a failed login leaves it as it was |
| Bank.Bank.Transfer | script.js:152-176 | see below |
| Bank.Bank.RemoveAt | script.js:188 | `accounts.splice(k, 1)` removes the account at a found index or the last account for -1, and keeps every remaining account valid |
| Bank.Bank.Close | script.js:178-193 | see below |
| Bank.WrongPinTransfer | script.js:134-175 | as written: after a login with a wrong PIN, two transfer clicks move money out of the account whose PIN was not given |
| Bank.Debits | script.js:171 | two clicks of which at least one went through leave the sender with less money |
| Bank.CheckedWrongPinTransfer | script.js:134-175 | with the intended login and nobody logged in, the same clicks move no money |
| Dogs.AgeList.constructor | script.js:219-220 | a dog-age array holds the given ages |
| Dogs.Corrected | script.js:224-225 | `splice(0, 1)` then `splice(-2)` leaves the list without its first and last two dogs; with fewer than 3 dogs it leaves the list empty |
| Dogs.VerdictFor | script.js:230-236 | the dog at position i is number i + 1, and is reported adult, with its age, exactly when it is at least 3 |
| Dogs.CheckDogs | script.js:222-238 | Julia's own array is corrected in place and Kate's is untouched unless it is the same array; the report holds one verdict per dog of the corrected list followed by Kate's: adult at 3 years or more, numbered from 1 |
| Dogs.HumanAge | script.js:263-269 | the human age is at least 18 exactly when the dog is older than 2, and is non-negative for a non-negative dog age |
| Dogs.HumanAgeIncreasing | script.js:263-269 | older dogs have strictly greater human ages |
| Dogs.AdultHumanAges | script.js:263-272 | the adult filter keeps at most all the dogs, and only human ages of at least 18 |
| Dogs.AdultsAreOlderDogs | script.js:263-272 | mapping to human ages and keeping those ≥ 18 is the same as keeping the dogs older than 2 and mapping those |

What the three handlers' contracts state.

**`Bank.Bank.Login`:**

- The account list is unchanged.
- The session becomes the first account with that username, or none.
- The dashboard is shown exactly when that account exists and its PIN equals the
  typed one. When it is shown:
  - the welcome text is "Welcome back, " followed by the owner's first name;
  - the view shows that account up to date.
- No other account's stored balance changes.

**`Bank.Bank.Transfer`:**

- It takes effect exactly when all of these hold:
  - there is a session;
  - the amount is > 0;
  - the receiver exists;
  - the stored balance is set and ≥ the amount;
  - the usernames differ.
- It never succeeds for a transfer to oneself, and never for more than the
  sender's balance.
- On success:
  - the sender gets `-amount` appended and the receiver `amount`;
  - the two balances add up to the same total as before;
  - no other account changes.
- On refusal, no movements list changes.
- Every account stays valid.
- With a session, the sender's dashboard is refreshed.

**`Bank.Bank.Close`:**

- The account list changes exactly when there is a session and both the username
  and the PIN are the session's. The list then becomes `splice(index, 1)` of the
  old list, where `index` is `findIndex` of the first account with that username.
- When `index` is not -1:
  - exactly the element at `index` is removed;
  - the length drops by one;
  - the others keep their order.
- When the session account is still in the list, `index` is not -1.
- When `index` is -1, the last account is removed (an empty list stays empty).
- The session is kept.

## Left out

- DOM queries, `innerHTML`/`textContent` writes, opacity, `blur` and clearing the
  input fields: these are display only. Only the content of the history rows, the
  balance, the summary and the welcome text is modelled (`Bank.View`).
- Event-listener registration, `preventDefault`, and `Number(input.value)` parsing.
  Handlers take their inputs already parsed: a username string and integer PIN and
  amount.
- Usernames.LowerLetters: models `toLowerCase` for ASCII letters only. Unicode case
  mapping is not part of this model.
- Ledger.Interest: interest is computed with exact `real` arithmetic, not IEEE
  doubles. The "≥ 1" cut-off and the displayed sum can therefore differ from the
  browser's by rounding.
- Bank.Bank.Transfer: JavaScript throws a TypeError when nobody is logged in;
  here the handler does nothing.
- Bank.Bank.Close: JavaScript throws a TypeError when nobody is logged in; here
  the handler does nothing.
- Before `createUserNames` runs, an account has no `username` property in
  JavaScript. Here it is "", which no lookup in the model can observe, because
  usernames are filled in before any handler runs.
- The first letter of an empty word (two spaces in a row in an owner's name)
  is `undefined` in JavaScript, and `join` renders it as "". `Usernames.Initial`
  gives "" directly.
- The averages of `calcAvgHumanAge`/`calcAvgHumanAgeNew` (script.js:273-274,
  301-303): floating-point division. Their mapping and filter are modelled.
- The `console.log` output of `checkDogs` is modelled as the list of verdicts it
  would print (`Dogs.Verdict`), not as text.
- Lecture demos with no state or result worth stating are not modelled:
  - the currencies `Map`/`Set` iteration (script.js:199-215);
  - `doubleNums`, `oddNums`, `numsSum`, `maxNum` and `output` (script.js:244-286);
  - `findResult` and `accountObj` (script.js:311-316).
- The loan button (script.js:52) has no handler, so there is no behaviour to
  model.
- Movement dates, currencies, locales and a logout timer are not in `script.js`,
  so they are not modelled.

## Findings

| source | as written | input that shows it | evidently intended | confidence | as-written member | corrected member |
|---|---|---|---|---|---|---|
| script.js:134-138 | the login handler sets `currentAccount` before it checks the PIN, and a refused transfer still refreshes the session's stored balance (script.js:175) | log in as "js" with PIN 0, then click transfer of 100 to "jd" twice: the second click moves 100 out of Jonas Schmedtmann's account | a wrong PIN leaves the session unchanged, so no money moves without the account's PIN | medium, not executed | Bank.WrongPinTransfer | Bank.CheckedWrongPinTransfer |

`Bank.Bank.Login` keeps the handler as written. `Bank.Bank.LoginChecked` is the
intended login, and `Bank.CheckedWrongPinTransfer` runs the same clicks through it.
