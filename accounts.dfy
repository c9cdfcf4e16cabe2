/**
  The account registry kept by `UserManager`, as values: a map from username
  to the account record, one function per operation giving the registry after
  the call (or the error the call signals), and the lemmas that relate the
  operations to the total balance and to the non-negative-balance invariant.
  The class in module UserApp updates a field of this map type in place and
  is proved against these functions.
 */
module Accounts {

  /** One user: the stored password and the balance. The source keeps the
      balance as a C# `decimal`, which is exact, so it is an unbounded integer
      here (an amount in the smallest unit). */
  datatype Account = Account(password: string, balance: int)

  /** The failures the source signals by throwing. */
  datatype Error =
    | UserNotFound       // ArgumentException about the username
    | InvalidAmount      // ArgumentException about a negative amount
    | InsufficientFunds  // InvalidOperationException

  datatype Result<T> = Success(value: T) | Failure(error: Error)

  /** The registry: username to account. */
  type Users = map<string, Account>

  /** Every stored balance is at least zero. */
  ghost predicate NonNegative(m: Users)
  {
    forall u :: u in m ==> m[u].balance >= 0
  }

  /** `after` holds the same entry as `before` for every key of `before` outside `touched`. */
  ghost predicate AgreeOutside(before: Users, after: Users, touched: set<string>)
  {
    forall u :: u in before && u !in touched ==> u in after && after[u] == before[u]
  }

  /** Some registered username; which one is left open. */
  ghost function AnyUser(m: Users): (u: string)
    requires m != map[]
    ensures u in m
  {
    var u :| u in m; u
  }

  /** Removing a registered username shrinks the registry. */
  lemma RemoveShrinks(m: Users, u: string)
    requires u in m
    ensures |m - {u}| < |m|
  {
    assert (m - {u}).Keys == m.Keys - {u};
  }

  /** The sum of all stored balances, in no particular order. */
  ghost function Sum(m: Users): (total: int)
    ensures m == map[] ==> total == 0
    ensures NonNegative(m) ==> total >= 0
    decreases |m|
  {
    if m == map[] then 0
    else
      var u := AnyUser(m);
      RemoveShrinks(m, u);
      m[u].balance + Sum(m - {u})
  }

  /** Any stored account can be taken out of the sum first. */
  lemma {:induction false} SumRemove(m: Users, u: string)
    requires u in m
    ensures Sum(m) == m[u].balance + Sum(m - {u})
    decreases |m|
  {
    var v := AnyUser(m);
    if v != u {
      RemoveShrinks(m, v);
      RemoveShrinks(m, u);
      SumRemove(m - {v}, u);
      SumRemove(m - {u}, v);
      assert m - {v} - {u} == m - {u} - {v};
    }
  }

  /** Replacing one stored account changes the sum by the difference of the two balances. */
  lemma SumUpdate(m: Users, u: string, a: Account)
    requires u in m
    ensures Sum(m[u := a]) == Sum(m) - m[u].balance + a.balance
  {
    SumRemove(m, u);
    SumRemove(m[u := a], u);
    assert m[u := a] - {u} == m - {u};
  }

  /** Adding an account under a new username adds its balance to the sum. */
  lemma SumInsert(m: Users, u: string, a: Account)
    requires u !in m
    ensures Sum(m[u := a]) == Sum(m) + a.balance
  {
    SumRemove(m[u := a], u);
    assert m[u := a] - {u} == m;
  }

  // ---------------------------------------------------------------------------
  // The operations, in the order of UserApp/Program.cs
  // ---------------------------------------------------------------------------

  /** Registration stores `(password, initialBalance)` under `username`, replacing
      any account already there; it never fails and does not check the sign of
      the balance. */
  function RegisterUser(m: Users, username: string, password: string, initialBalance: int): (m': Users)
    ensures m'.Keys == m.Keys + {username}
    ensures m'[username] == Account(password, initialBalance)
    ensures AgreeOutside(m, m', {username})
    ensures IsUserValid(m', username, password)
    ensures NonNegative(m) && initialBalance >= 0 ==> NonNegative(m')
  {
    m[username := Account(password, initialBalance)]
  }

  /** A credential is valid exactly when the username is registered with that password. */
  function IsUserValid(m: Users, username: string, password: string): (valid: bool)
    ensures valid <==> username in m && m[username].password == password
  {
    if username in m then m[username].password == password else false
  }

  /** The stored balance, or UserNotFound for an unregistered name. */
  function GetUserBalance(m: Users, username: string): (r: Result<int>)
    ensures r.Success? <==> username in m
    ensures r.Success? ==> r.value == m[username].balance
    ensures r.Failure? ==> r.error == UserNotFound
  {
    if username in m then Success(m[username].balance) else Failure(UserNotFound)
  }

  /** Credit: the amount's sign is checked before the user's existence; on
      success only the balance of `username` changes, by exactly `amount`. */
  function AddFunds(m: Users, username: string, amount: int): (r: Result<Users>)
    ensures amount < 0 ==> r == Failure(InvalidAmount)
    ensures amount >= 0 && username !in m ==> r == Failure(UserNotFound)
    ensures r.Success? <==> amount >= 0 && username in m
    ensures r.Success? ==>
      && r.value.Keys == m.Keys
      && r.value[username].password == m[username].password
      && r.value[username].balance == m[username].balance + amount
      && AgreeOutside(m, r.value, {username})
    ensures r.Success? && NonNegative(m) ==> NonNegative(r.value)
  {
    if amount < 0 then Failure(InvalidAmount)
    else if username in m then
      Success(m[username := Account(m[username].password, m[username].balance + amount)])
    else Failure(UserNotFound)
  }

  /** Debit: sign, then existence, then funds are checked; a successful debit
      lowers only the balance of `username`, by exactly `amount`, and never
      below zero. */
  function WithdrawFunds(m: Users, username: string, amount: int): (r: Result<Users>)
    ensures amount < 0 ==> r == Failure(InvalidAmount)
    ensures amount >= 0 && username !in m ==> r == Failure(UserNotFound)
    ensures amount >= 0 && username in m && m[username].balance < amount ==> r == Failure(InsufficientFunds)
    ensures r.Success? <==> amount >= 0 && username in m && m[username].balance >= amount
    ensures r.Success? ==>
      && r.value.Keys == m.Keys
      && r.value[username].password == m[username].password
      && r.value[username].balance == m[username].balance - amount
      && r.value[username].balance >= 0
      && AgreeOutside(m, r.value, {username})
    ensures r.Success? && NonNegative(m) ==> NonNegative(r.value)
  {
    if amount < 0 then Failure(InvalidAmount)
    else if username in m then
      if m[username].balance >= amount then
        Success(m[username := Account(m[username].password, m[username].balance - amount)])
      else Failure(InsufficientFunds)
    else Failure(UserNotFound)
  }

  /** Deletion removes exactly `username`; afterwards its balance lookup fails
      as if it had never been registered. */
  function DeleteUser(m: Users, username: string): (r: Result<Users>)
    ensures r.Success? <==> username in m
    ensures r.Failure? ==> r.error == UserNotFound
    ensures r.Success? ==>
      && r.value.Keys == m.Keys - {username}
      && AgreeOutside(m, r.value, {username})
      && GetUserBalance(r.value, username) == Failure(UserNotFound)
    ensures r.Success? && NonNegative(m) ==> NonNegative(r.value)
  {
    if username in m then Success(m - {username}) else Failure(UserNotFound)
  }

  /** A password change keeps the balance and makes the new password the only
      valid one for `username`. */
  function ChangePassword(m: Users, username: string, newPassword: string): (r: Result<Users>)
    ensures r.Success? <==> username in m
    ensures r.Failure? ==> r.error == UserNotFound
    ensures r.Success? ==>
      && r.value.Keys == m.Keys
      && r.value[username].balance == m[username].balance
      && (forall p :: IsUserValid(r.value, username, p) <==> p == newPassword)
      && AgreeOutside(m, r.value, {username})
    ensures r.Success? && NonNegative(m) ==> NonNegative(r.value)
  {
    if username in m then Success(m[username := Account(newPassword, m[username].balance)])
    else Failure(UserNotFound)
  }

  /** Transfer: both users must exist, then the sender must hold at least
      `amount`; the sign of `amount` is not checked. The debit is written
      first and the credit reads the debited map, so a self-transfer restores
      the account it started from. */
  function TransferFunds(m: Users, sender: string, recipient: string, amount: int): (r: Result<Users>)
    ensures !(sender in m && recipient in m) ==> r == Failure(UserNotFound)
    ensures sender in m && recipient in m && m[sender].balance < amount ==> r == Failure(InsufficientFunds)
    ensures r.Success? <==> sender in m && recipient in m && m[sender].balance >= amount
    ensures r.Success? ==>
      && r.value.Keys == m.Keys
      && r.value[sender].password == m[sender].password
      && r.value[recipient].password == m[recipient].password
      && AgreeOutside(m, r.value, {sender, recipient})
    ensures r.Success? && sender != recipient ==>
      && r.value[sender].balance == m[sender].balance - amount
      && r.value[recipient].balance == m[recipient].balance + amount
    ensures r.Success? && sender == recipient ==> r.value == m
    ensures r.Success? && amount >= 0 && NonNegative(m) ==> NonNegative(r.value)
  {
    if sender in m && recipient in m then
      if m[sender].balance >= amount then
        var debited := m[sender := Account(m[sender].password, m[sender].balance - amount)];
        Success(debited[recipient := Account(debited[recipient].password, debited[recipient].balance + amount)])
      else Failure(InsufficientFunds)
    else Failure(UserNotFound)
  }

  // ---------------------------------------------------------------------------
  // Effect of each operation on the total balance
  // ---------------------------------------------------------------------------

  /** Registration adds the new balance and drops the balance of any account it replaces. */
  lemma RegisterUserTotal(m: Users, username: string, password: string, initialBalance: int)
    ensures Sum(RegisterUser(m, username, password, initialBalance))
         == Sum(m) - (if username in m then m[username].balance else 0) + initialBalance
  {
    if username in m {
      SumUpdate(m, username, Account(password, initialBalance));
    } else {
      SumInsert(m, username, Account(password, initialBalance));
    }
  }

  lemma AddFundsTotal(m: Users, username: string, amount: int)
    requires AddFunds(m, username, amount).Success?
    ensures Sum(AddFunds(m, username, amount).value) == Sum(m) + amount
  {
    SumUpdate(m, username, Account(m[username].password, m[username].balance + amount));
  }

  lemma WithdrawFundsTotal(m: Users, username: string, amount: int)
    requires WithdrawFunds(m, username, amount).Success?
    ensures Sum(WithdrawFunds(m, username, amount).value) == Sum(m) - amount
  {
    SumUpdate(m, username, Account(m[username].password, m[username].balance - amount));
  }

  lemma DeleteUserTotal(m: Users, username: string)
    requires DeleteUser(m, username).Success?
    ensures Sum(DeleteUser(m, username).value) == Sum(m) - m[username].balance
  {
    SumRemove(m, username);
  }

  lemma ChangePasswordTotal(m: Users, username: string, newPassword: string)
    requires ChangePassword(m, username, newPassword).Success?
    ensures Sum(ChangePassword(m, username, newPassword).value) == Sum(m)
  {
    SumUpdate(m, username, Account(newPassword, m[username].balance));
  }

  /** A successful transfer moves money between accounts and creates or destroys none. */
  lemma TransferFundsTotal(m: Users, sender: string, recipient: string, amount: int)
    requires TransferFunds(m, sender, recipient, amount).Success?
    ensures Sum(TransferFunds(m, sender, recipient, amount).value) == Sum(m)
  {
    var debited := m[sender := Account(m[sender].password, m[sender].balance - amount)];
    SumUpdate(m, sender, debited[sender]);
    SumUpdate(debited, recipient, Account(debited[recipient].password, debited[recipient].balance + amount));
  }

  /** The transfer does not check the sign of the amount, so a negative amount
      succeeds whenever both users exist and drains the recipient: here the
      recipient ends at -5 although every balance started at zero. */
  lemma NegativeTransferDrainsRecipient()
    ensures var m := map["a" := Account("p", 0), "b" := Account("q", 0)];
            && NonNegative(m)
            && TransferFunds(m, "a", "b", -5).Success?
            && TransferFunds(m, "a", "b", -5).value["b"].balance == -5
            && !NonNegative(TransferFunds(m, "a", "b", -5).value)
  {
  }
}
