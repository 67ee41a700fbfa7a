/** `checkWalletBalance`: one balance query compared with the service fee. */
module WalletBalance {

  /** The answer of the ledger's balance query for the payer, in lamports. */
  datatype BalanceReply = Balance(lamports: nat) | QueryThrew

  /** What the check concludes, and which notice it raises. */
  datatype Verdict =
    | Sufficient
    /** "Insufficient balance" notice naming the required fee. */
    | InsufficientBalance(required: int)
    /** "Failed to check wallet balance" notice; the error is not propagated. */
    | CheckFailed

  /** The boolean `checkWalletBalance` returns. */
  predicate Passed(v: Verdict) {
    v.Sufficient?
  }

  function CheckWalletBalance(reply: BalanceReply, fee: int): (v: Verdict)
    ensures Passed(v) <==> reply.Balance? && reply.lamports >= fee
    ensures v.InsufficientBalance? <==> reply.Balance? && reply.lamports < fee
    ensures v.InsufficientBalance? ==> v.required == fee
    ensures v.CheckFailed? <==> reply.QueryThrew?
  {
    match reply
    case QueryThrew => CheckFailed
    case Balance(b) => if b < fee then InsufficientBalance(fee) else Sufficient
  }

  /** A balance that passes keeps passing when it grows or the fee shrinks. */
  lemma {:induction false} PassedMonotone(b: nat, fee: int, b': nat, fee': int)
    requires Passed(CheckWalletBalance(Balance(b), fee))
    requires b <= b' && fee' <= fee
    ensures Passed(CheckWalletBalance(Balance(b'), fee'))
  {
  }
}
