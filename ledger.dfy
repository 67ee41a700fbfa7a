/**
 * The ledger-side vocabulary shared by the submitter and the priority-fee helper:
 * the instructions the multisender puts into a transaction, and the transaction
 * object that `add` appends to in place. Key derivation and instruction encoding
 * are the blockchain SDK's business; an instruction here records only who pays,
 * who receives and how much.
 */
module Ledger {
  import opened Common

  datatype Instruction =
    /** Compute-budget program: price per compute unit, in micro-lamports. */
    | SetComputeUnitPrice(microLamports: nat)
    /** System program transfer of native lamports. */
    | SystemTransfer(from: string, to: string, lamports: nat)
    /** Create the associated token account of `owner` for `mint`, paid by `payer`. */
    | CreateTokenAccount(payer: string, owner: string, mint: string)
    /** Token-program transfer of `raw` base units of `mint` between the owners' associated accounts. */
    | TokenTransfer(mint: string, fromOwner: string, toOwner: string, raw: real)

  /** A transaction under construction; `Add` appends in place. */
  class Transaction {
    var instructions: seq<Instruction>
    var feePayer: Option<string>
    var recentBlockhash: Option<string>

    constructor ()
      ensures instructions == [] && feePayer == None && recentBlockhash == None
    {
      instructions := [];
      feePayer := None;
      recentBlockhash := None;
    }

    method Add(ix: Instruction)
      modifies this`instructions
      ensures instructions == old(instructions) + [ix]
    {
      instructions := instructions + [ix];
    }
  }
}
