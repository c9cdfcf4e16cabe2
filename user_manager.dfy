/**
  The `UserManager` class of UserApp/Program.cs: one mutable field holding the
  registry, updated in place by the mutating methods and read by the queries.
  Every method follows the source's order of checks and is proved against the
  function of the same name in module Accounts; each exception of the source
  becomes a returned error and leaves the field as it was.
 */
module UserApp {
  import opened Accounts

  /** What a `void` method of the source ends with: normal return or the exception it throws. */
  datatype Status = Done | Failed(error: Error)

  class UserManager {
    var users: Users

    constructor ()
      ensures users == map[]
    {
      users := map[];
    }

    method RegisterUser(username: string, password: string, initialBalance: int := 0)
      modifies this
      ensures users == Accounts.RegisterUser(old(users), username, password, initialBalance)
      ensures Sum(users) == old(Sum(users))
                            - (if username in old(users) then old(users)[username].balance else 0)
                            + initialBalance
    {
      RegisterUserTotal(users, username, password, initialBalance);
      users := users[username := Account(password, initialBalance)];
    }

    method IsUserValid(username: string, password: string) returns (valid: bool)
      ensures valid == Accounts.IsUserValid(users, username, password)
    {
      if username in users {
        return users[username].password == password;
      }
      return false;
    }

    method GetUserBalance(username: string) returns (r: Result<int>)
      ensures r == Accounts.GetUserBalance(users, username)
    {
      if username in users {
        return Success(users[username].balance);
      }
      return Failure(UserNotFound);
    }

    method AddFunds(username: string, amount: int) returns (status: Status)
      modifies this
      ensures status.Done? ==> Accounts.AddFunds(old(users), username, amount) == Success(users)
      ensures status.Failed? ==> Accounts.AddFunds(old(users), username, amount) == Failure(status.error)
      ensures status.Failed? ==> users == old(users)
      ensures status.Done? ==> Sum(users) == old(Sum(users)) + amount
    {
      if amount < 0 {
        return Failed(InvalidAmount);
      }
      if username in users {
        AddFundsTotal(users, username, amount);
        users := users[username := Account(users[username].password, users[username].balance + amount)];
        status := Done;
      } else {
        status := Failed(UserNotFound);
      }
    }

    method WithdrawFunds(username: string, amount: int) returns (status: Status)
      modifies this
      ensures status.Done? ==> Accounts.WithdrawFunds(old(users), username, amount) == Success(users)
      ensures status.Failed? ==> Accounts.WithdrawFunds(old(users), username, amount) == Failure(status.error)
      ensures status.Failed? ==> users == old(users)
      ensures status.Done? ==> Sum(users) == old(Sum(users)) - amount
    {
      if amount < 0 {
        return Failed(InvalidAmount);
      }
      if username in users {
        if users[username].balance >= amount {
          WithdrawFundsTotal(users, username, amount);
          users := users[username := Account(users[username].password, users[username].balance - amount)];
          status := Done;
        } else {
          status := Failed(InsufficientFunds);
        }
      } else {
        status := Failed(UserNotFound);
      }
    }

    method DeleteUser(username: string) returns (status: Status)
      modifies this
      ensures status.Done? ==> Accounts.DeleteUser(old(users), username) == Success(users)
      ensures status.Failed? ==> Accounts.DeleteUser(old(users), username) == Failure(status.error)
      ensures status.Failed? ==> users == old(users)
      ensures status.Done? ==> Sum(users) == old(Sum(users)) - old(users)[username].balance
    {
      if username in users {
        DeleteUserTotal(users, username);
        users := users - {username};
        status := Done;
      } else {
        status := Failed(UserNotFound);
      }
    }

    method ChangePassword(username: string, newPassword: string) returns (status: Status)
      modifies this
      ensures status.Done? ==> Accounts.ChangePassword(old(users), username, newPassword) == Success(users)
      ensures status.Failed? ==> Accounts.ChangePassword(old(users), username, newPassword) == Failure(status.error)
      ensures status.Failed? ==> users == old(users)
      ensures Sum(users) == old(Sum(users))
    {
      if username in users {
        ChangePasswordTotal(users, username, newPassword);
        users := users[username := Account(newPassword, users[username].balance)];
        status := Done;
      } else {
        status := Failed(UserNotFound);
      }
    }

    /** The LINQ `Sum` over the dictionary: visits every entry once, in an unspecified order. */
    method GetTotalBalance() returns (total: int)
      ensures total == Sum(users)
    {
      total := 0;
      var rest := users;
      while rest != map[]
        invariant total + Sum(rest) == Sum(users)
        decreases |rest|
      {
        var u :| u in rest;
        SumRemove(rest, u);
        RemoveShrinks(rest, u);
        total := total + rest[u].balance;
        rest := rest - {u};
      }
    }

    /** The debit of the sender is written first; the credit then reads the
        recipient from the updated field, which is the debited entry itself
        when the two names are equal. */
    method TransferFunds(senderUsername: string, recipientUsername: string, amount: int) returns (status: Status)
      modifies this
      ensures status.Done? ==> Accounts.TransferFunds(old(users), senderUsername, recipientUsername, amount) == Success(users)
      ensures status.Failed? ==> Accounts.TransferFunds(old(users), senderUsername, recipientUsername, amount) == Failure(status.error)
      ensures status.Failed? ==> users == old(users)
      ensures Sum(users) == old(Sum(users))
    {
      if senderUsername in users && recipientUsername in users {
        if users[senderUsername].balance >= amount {
          TransferFundsTotal(users, senderUsername, recipientUsername, amount);
          users := users[senderUsername := Account(users[senderUsername].password, users[senderUsername].balance - amount)];
          users := users[recipientUsername := Account(users[recipientUsername].password, users[recipientUsername].balance + amount)];
          status := Done;
        } else {
          status := Failed(InsufficientFunds);
        }
      } else {
        status := Failed(UserNotFound);
      }
    }
  }
}
