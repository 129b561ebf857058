/** The service's entities and its request and response payloads. Money is counted in
    integer cents, so 2354.23 is 235423. */
module Model {

  /** A bank account. Its identifier and main flag never change; the transfer
      operation updates its balance in place, through every reference to it. */
  class Account {
    const id: string
    const main: bool
    var balance: int

    constructor (id: string, main: bool, balance: int)
      ensures this.id == id && this.main == main && this.balance == balance
    {
      this.id := id;
      this.main := main;
      this.balance := balance;
    }
  }

  /** A user of the directory: identifier, plaintext password and the accounts the
      user owns, in their stored order. The name fields are not modelled. */
  datatype User = User(id: string, password: string, accounts: seq<Account>)

  /** The login request and its answer. */
  datatype Credentials = Credentials(id: string, password: string)
  datatype CredentialsResult = CredentialsResult(success: bool)

  /** The transfer request and its answer. */
  datatype Transfer = Transfer(senderId: string, recipientId: string, amount: int)
  datatype TransferResult = TransferResult(success: bool)

  /** What a transfer call ends with: a thrown IllegalArgumentException carrying its
      message, or a returned TransferResult. */
  datatype TransferOutcome = InvalidArgument(message: string) | Ok(result: TransferResult)

  /** A value snapshot of an account and of a user, for stating what the directory holds. */
  datatype AccountView = AccountView(id: string, main: bool, balance: int)
  datatype UserView = UserView(id: string, password: string, accounts: seq<AccountView>)
}
