/**
  The scenarios of UserAppTests/UserManagerTests.cs, each on a fresh
  `UserManager`, written as clients that the contracts of module UserApp alone
  must carry: every method returns what the test observes and its postcondition
  is the test's assertion.
 */
module UserManagerTests {
  import opened Accounts
  import opened UserApp

  /** One row of the credential fixture: when the row is expected to be valid
      the user is registered first (with the default balance), otherwise the
      registry stays empty. */
  method IsUserValidFromData(username: string, password: string, expected: bool) returns (valid: bool)
    ensures valid == expected
  {
    var manager := new UserManager();
    if expected {
      manager.RegisterUser(username, password);
    }
    valid := manager.IsUserValid(username, password);
  }

  method AddFundsValidUserIncreasesBalance() returns (balance: Result<int>)
    ensures balance == Success(150)
  {
    var manager := new UserManager();
    manager.RegisterUser("user3", "password123", 100);
    var _ := manager.AddFunds("user3", 50);
    balance := manager.GetUserBalance("user3");
  }

  /** The rejected credit also leaves the balance as it was. */
  method AddFundsNegativeAmountFails() returns (status: Status, balance: Result<int>)
    ensures status == Failed(InvalidAmount)
    ensures balance == Success(100)
  {
    var manager := new UserManager();
    manager.RegisterUser("user4", "password123", 100);
    status := manager.AddFunds("user4", -50);
    balance := manager.GetUserBalance("user4");
  }

  method WithdrawFundsSufficientBalanceDecreasesBalance() returns (balance: Result<int>)
    ensures balance == Success(50)
  {
    var manager := new UserManager();
    manager.RegisterUser("user5", "password123", 200);
    var _ := manager.WithdrawFunds("user5", 150);
    balance := manager.GetUserBalance("user5");
  }

  method WithdrawFundsInsufficientBalanceFails() returns (status: Status, balance: Result<int>)
    ensures status == Failed(InsufficientFunds)
    ensures balance == Success(50)
  {
    var manager := new UserManager();
    manager.RegisterUser("user6", "password123", 50);
    status := manager.WithdrawFunds("user6", 100);
    balance := manager.GetUserBalance("user6");
  }

  method DeleteUserExistingUserIsRemoved() returns (balance: Result<int>)
    ensures balance == Failure(UserNotFound)
  {
    var manager := new UserManager();
    manager.RegisterUser("user7", "password123");
    var _ := manager.DeleteUser("user7");
    balance := manager.GetUserBalance("user7");
  }

  method DeleteUserNonExistingUserFails() returns (status: Status)
    ensures status == Failed(UserNotFound)
  {
    var manager := new UserManager();
    status := manager.DeleteUser("nonexistentUser");
  }

  /** After the change the new password is accepted and the old one no longer is. */
  method ChangePasswordExistingUserUpdatesPassword() returns (newValid: bool, oldValid: bool)
    ensures newValid && !oldValid
  {
    var manager := new UserManager();
    manager.RegisterUser("user8", "oldPassword");
    var _ := manager.ChangePassword("user8", "newPassword");
    newValid := manager.IsUserValid("user8", "newPassword");
    oldValid := manager.IsUserValid("user8", "oldPassword");
  }

  method ChangePasswordNonExistingUserFails() returns (status: Status)
    ensures status == Failed(UserNotFound)
  {
    var manager := new UserManager();
    status := manager.ChangePassword("nonexistentUser", "newPassword");
  }

  method GetTotalBalanceMultipleUsersReturnsSum() returns (total: int)
    ensures total == 800
  {
    var manager := new UserManager();
    manager.RegisterUser("user9", "password123", 300);
    manager.RegisterUser("user10", "password456", 500);
    total := manager.GetTotalBalance();
  }

  method TransferFundsValidTransferUpdatesBothBalances() returns (sender: Result<int>, recipient: Result<int>)
    ensures sender == Success(300) && recipient == Success(300)
  {
    var manager := new UserManager();
    manager.RegisterUser("user11", "password123", 500);
    manager.RegisterUser("user12", "password456", 100);
    var _ := manager.TransferFunds("user11", "user12", 200);
    sender := manager.GetUserBalance("user11");
    recipient := manager.GetUserBalance("user12");
  }

  /** The refused transfer changes neither balance. */
  method TransferFundsInsufficientFundsFails() returns (status: Status, sender: Result<int>, recipient: Result<int>)
    ensures status == Failed(InsufficientFunds)
    ensures sender == Success(100) && recipient == Success(50)
  {
    var manager := new UserManager();
    manager.RegisterUser("user13", "password789", 100);
    manager.RegisterUser("user14", "password101112", 50);
    status := manager.TransferFunds("user13", "user14", 150);
    sender := manager.GetUserBalance("user13");
    recipient := manager.GetUserBalance("user14");
  }

  /** A self-transfer the sender can cover succeeds and leaves the balance where it was. */
  method TransferFundsToSelfChangesNothing() returns (status: Status, balance: Result<int>)
    ensures status == Done && balance == Success(100)
  {
    var manager := new UserManager();
    manager.RegisterUser("user15", "password123", 100);
    status := manager.TransferFunds("user15", "user15", 60);
    balance := manager.GetUserBalance("user15");
  }
}
