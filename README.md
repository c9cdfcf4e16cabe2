# UserApp account registry in Dafny

A model of `UserManager` from UserApp. It is an in-memory registry that maps
each username to a `(password, balance)` pair. Its operations are:

- register a user
- check a credential
- look up a balance
- add or withdraw funds
- delete a user
- change a password
- total all balances
- transfer funds between two users

Three modules make up the project:

- `Accounts` (`accounts.dfy`) is the registry as a value. `Users` is a
  `map<string, Account>`. Each operation is a function. It returns either the
  registry after the call or the error the call signals. Each function's
  contract states the failure conditions in the source's order of checks.
  It also states what the successful call changes and that every other
  entry is kept. `Sum` is the ghost total of all balances. Lemmas give each
  operation's effect on `Sum`.
- `UserApp` (`user_manager.dfy`) holds the class `UserManager`. Its field
  `users` stands for the private dictionary `_users`. The mutating methods
  assign to that field, and the queries read it. Each method follows the
  source's branches step by step and mirrors the `Accounts` function of the
  same name, so its postcondition ties it to that function directly; only
  `GetTotalBalance`, a loop over the entries, needs a proof of its own.
  A method that fails returns `Failed(e)` in place of throwing, and it
  leaves `users` unchanged.
- `UserManagerTests` (`user_manager_tests.dfy`) holds the unit-test
  scenarios as client methods. Each one returns what its test observes.
  Its postcondition is the test's assertion, plus the unchanged state that
  a refused call implies (and, for the password change, that the old
  password no longer validates), proved from the `UserApp` contracts
  alone. The self-transfer scenario has no counterpart among the unit
  tests.

The C# `decimal` balance and amounts are unbounded integers. `decimal` is
exact base-10, so read an integer as an amount in the smallest unit.

Behaviour kept as the source has it:

- `RegisterUser` never fails for a non-null username. It replaces an
  existing account, and its old balance is lost. It accepts a negative initial balance.
- `AddFunds` and `WithdrawFunds` check the sign of the amount before they
  check that the user exists. A negative amount for an unknown user
  therefore reports `InvalidAmount`.
- `TransferFunds` checks that both users exist before it checks the funds.
  It never checks the sign of the amount. A negative amount succeeds when
  the sender's balance is at least that amount. It then takes money from
  the recipient and can leave the recipient below zero
  (`NegativeTransferDrainsRecipient`). So non-negative balances are proved
  only as preserved by calls whose amounts are non-negative. They do not
  hold for every reachable state.
- The second write of a transfer reads the entry written by the first. So
  a transfer to oneself is a successful no-op whenever the balance covers
  the amount.

## Model

| member | source | states |
|---|---|---|
| `Accounts.Sum` | UserApp/Program.cs:107-110 | total of all stored balances; 0 for an empty registry; never negative when no balance is negative |
| `Accounts.SumRemove` | UserApp/Program.cs:109 | any account can be taken out of the total first: the sum does not depend on enumeration order |
| `Accounts.SumUpdate` | UserApp/Program.cs:109 | replacing one account changes the total by the difference of the old and new balances |
| `Accounts.SumInsert` | UserApp/Program.cs:109 | an account under a new name adds its balance to the total |
| `Accounts.RegisterUser` | UserApp/Program.cs:14-17 | always succeeds (usernames are never null here); the name maps to (password, initialBalance) whether or not it existed; every other entry is kept; the password is then valid; non-negativity is kept when the initial balance is non-negative |
| `Accounts.IsUserValid` | UserApp/Program.cs:20-27 | true exactly when the name is registered with that password; false for an unknown name |
| `Accounts.GetUserBalance` | UserApp/Program.cs:30-37 | the stored balance when the name is registered, UserNotFound otherwise |
| `Accounts.AddFunds` | UserApp/Program.cs:40-55 | negative amount gives InvalidAmount before existence is checked; unknown name gives UserNotFound; on success only that balance changes, up by exactly the amount, password and other entries kept, non-negativity kept |
| `Accounts.WithdrawFunds` | UserApp/Program.cs:58-80 | InvalidAmount, then UserNotFound, then InsufficientFunds when balance < amount; on success only that balance changes, down by exactly the amount, and stays >= 0 |
| `Accounts.DeleteUser` | UserApp/Program.cs:83-93 | UserNotFound for an unknown name; on success exactly that key is removed, all others kept, and a later balance lookup reports UserNotFound |
| `Accounts.ChangePassword` | UserApp/Program.cs:95-105 | UserNotFound for an unknown name; on success the balance and other entries are kept and the new password is the only one valid for the name |
| `Accounts.TransferFunds` | UserApp/Program.cs:112-130 | UserNotFound when either user is missing, checked before funds; InsufficientFunds when sender balance < amount; on success sender loses and recipient gains exactly the amount, passwords and other entries kept; a self-transfer leaves the registry as it was; non-negativity kept for a non-negative amount |
| `Accounts.RegisterUserTotal` | UserApp/Program.cs:14-17 | registering adds the initial balance to the total and drops the balance of any replaced account |
| `Accounts.AddFundsTotal` | UserApp/Program.cs:40-55 | a successful credit raises the total by the amount |
| `Accounts.WithdrawFundsTotal` | UserApp/Program.cs:58-80 | a successful debit lowers the total by the amount |
| `Accounts.DeleteUserTotal` | UserApp/Program.cs:83-93 | a deletion lowers the total by the removed balance |
| `Accounts.ChangePasswordTotal` | UserApp/Program.cs:95-105 | a password change keeps the total |
| `Accounts.TransferFundsTotal` | UserApp/Program.cs:112-130 | a successful transfer keeps the total balance |
| `Accounts.NegativeTransferDrainsRecipient` | UserApp/Program.cs:114-119 | the unchecked amount sign lets a transfer of -5 between two zero balances succeed and leave the recipient at -5 |
| `UserApp.UserManager.constructor` | UserApp/Program.cs:11 | a new manager holds no users |
| `UserApp.UserManager.RegisterUser` | UserApp/Program.cs:14-17 | the field becomes the registration of the old one; total changes as RegisterUserTotal says |
| `UserApp.UserManager.IsUserValid` | UserApp/Program.cs:20-27 | answers as Accounts.IsUserValid on the current registry, changing nothing |
| `UserApp.UserManager.GetUserBalance` | UserApp/Program.cs:30-37 | answers as Accounts.GetUserBalance on the current registry, changing nothing |
| `UserApp.UserManager.AddFunds` | UserApp/Program.cs:40-55 | success installs Accounts.AddFunds's registry; a failure reports its error and leaves the field unchanged; total rises by the amount |
| `UserApp.UserManager.WithdrawFunds` | UserApp/Program.cs:58-80 | success installs Accounts.WithdrawFunds's registry; a failure reports its error and leaves the field unchanged; total falls by the amount |
| `UserApp.UserManager.DeleteUser` | UserApp/Program.cs:83-93 | success installs Accounts.DeleteUser's registry; a failure leaves the field unchanged; total falls by the removed balance |
| `UserApp.UserManager.ChangePassword` | UserApp/Program.cs:95-105 | success installs Accounts.ChangePassword's registry; a failure leaves the field unchanged; total unchanged |
| `UserApp.UserManager.GetTotalBalance` | UserApp/Program.cs:107-110 | the loop over the entries returns exactly the sum of all stored balances |
| `UserApp.UserManager.TransferFunds` | UserApp/Program.cs:112-130 | the two sequential writes produce Accounts.TransferFunds's registry; a failure leaves the field unchanged; total unchanged in every case |
| `UserManagerTests.IsUserValidFromData` | UserAppTests/UserManagerTests.cs:37-48 | a registered (name, password) is valid; on an empty registry it is not |
| `UserManagerTests.AddFundsValidUserIncreasesBalance` | UserAppTests/UserManagerTests.cs:50-56 | 100 + 50 gives balance 150 |
| `UserManagerTests.AddFundsNegativeAmountFails` | UserAppTests/UserManagerTests.cs:58-63 | crediting -50 fails with InvalidAmount and the balance stays 100 |
| `UserManagerTests.WithdrawFundsSufficientBalanceDecreasesBalance` | UserAppTests/UserManagerTests.cs:65-71 | 200 - 150 gives balance 50 |
| `UserManagerTests.WithdrawFundsInsufficientBalanceFails` | UserAppTests/UserManagerTests.cs:73-78 | withdrawing 100 from 50 fails with InsufficientFunds and the balance stays 50 |
| `UserManagerTests.DeleteUserExistingUserIsRemoved` | UserAppTests/UserManagerTests.cs:80-86 | after deletion the balance lookup reports UserNotFound |
| `UserManagerTests.DeleteUserNonExistingUserFails` | UserAppTests/UserManagerTests.cs:88-92 | deleting an unknown user fails with UserNotFound |
| `UserManagerTests.ChangePasswordExistingUserUpdatesPassword` | UserAppTests/UserManagerTests.cs:94-100 | the new password validates and the old one no longer does |
| `UserManagerTests.ChangePasswordNonExistingUserFails` | UserAppTests/UserManagerTests.cs:102-106 | changing the password of an unknown user fails with UserNotFound |
| `UserManagerTests.GetTotalBalanceMultipleUsersReturnsSum` | UserAppTests/UserManagerTests.cs:108-114 | 300 + 500 gives a total of 800 |
| `UserManagerTests.TransferFundsValidTransferUpdatesBothBalances` | UserAppTests/UserManagerTests.cs:116-124 | 200 from 500 to 100 leaves both at 300 |
| `UserManagerTests.TransferFundsInsufficientFundsFails` | UserAppTests/UserManagerTests.cs:126-132 | 150 from 100 fails with InsufficientFunds and both balances stay 100 and 50 |
| `UserManagerTests.TransferFundsToSelfChangesNothing` | UserApp/Program.cs:118-119 | a covered self-transfer succeeds and the balance stays 100 |

## Left out

- `Program.Main` (UserApp/Program.cs:133-139) is an empty entry point with no logic.
- The XML fixture loading in the tests (UserAppTests/UserManagerTests.cs:22-35) reads a file at a fixed path. `IsUserValidFromData` takes one fixture row as parameters.
- The range, overflow and scale of C# `decimal` are not modelled. Balances and amounts are unbounded integers, so no operation can overflow here.
- Exception classes and message strings are not modelled. Each exception is one `Error` value: `UserNotFound` for either argument exception about a user, `InvalidAmount` for the one about the amount, and `InsufficientFunds` for the invalid-operation exception.
- Null strings are not modelled: usernames and passwords are Dafny strings, which are never null. The `ArgumentNullException` that the dictionary throws for a null username (UserApp/Program.cs:16, 22, 32, 47, 65, 85, 97, 114) is therefore not modelled, and a null stored password is not distinguished from other passwords.
- Concurrency is not modelled, because the source is single-threaded and has no locking.
- `UserApp.UserManager.GetTotalBalance` visits the entries in a nondeterministic order. The model does not fix the dictionary's enumeration order, and the result does not depend on it.
