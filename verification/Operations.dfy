/** Account operations and facade calls, shared by the modules that reconstruct transactions. */
module Operations {

  import opened Wrappers

  type SessionId = nat
  type Address = nat

  /** The event or call an operation stands for. */
  datatype Action =
    | AddCollateral
    | IncreaseBorrowedAmount
    | DecreaseBorrowedAmount
    | TokenEnabled
    | TokenDisabled
    | ExecuteOrder
    | OpenCreditAccount
    | MultiCallStarted
    | CloseCreditAccount
    | LiquidateCreditAccount
    | DappCall(name: nat)

  datatype Operation = Operation(action: Action, logId: nat, session: SessionId, borrower: Address, dapp: Address)

  datatype ActionKind = OpenEvent | MulticallEvent | CloseEvent

  /** A main action of a transaction together with the events attributed to it. */
  datatype FacadeAction = FacadeAction(data: Operation, multicall: seq<Operation>, kind: ActionKind, withoutMC: bool,
                                       ended: bool)

  datatype CallName = FacadeOpenMulticall | FacadeMulticall | FacadeLiquidate | FacadeLiquidateExpired
      | FacadeCloseAccount
}
