/**
 * The batch planner behind the multisender's submit button: fee estimates in
 * lamports, the split of the recipient list into groups of ten, the instruction
 * layout of each group's transaction, and the sequential send that stops at the
 * first group that fails. Everything the ledger, the wallet and the relay answer
 * is an input (`Network`); nothing here signs or sends.
 */
module Batching {
  import opened Common
  import opened Ledger
  import opened PriorityFees
  import opened WalletBalance
  import opened RecipientRows

  /** Recipients per transaction. */
  const ChunkSize: nat := 10
  /** `0.001 * LAMPORTS_PER_SOL`, charged per recipient. */
  const PlatformFeePerWallet: nat := 1000000
  /** `LAMPORTS_PER_SOL * 0.0001`, the relay tip paid once per transaction. */
  const TipLamports: nat := 100000
  /** Lamports added to the estimate for refunding the sender. */
  const RefundBuffer: nat := 50000
  /** Below this many recipients the fee estimate is not recomputed. */
  const MinRecipientsForFees: nat := 10
  /** Receiver of the platform fee. */
  const PlatformAddress: string := "Bi66BRqgxcu8BzRq4wodonvMyDxHyv4eUqVb2qTmkenx"
  /** `MAX_PAYLOAD_SIZE_MB` megabytes of 1024 * 1024 bytes. */
  const MaxPayloadBytes: nat := 3 * 1024 * 1024

  function Min(a: int, b: int): int {
    if a <= b then a else b
  }

  /** `Math.ceil(n / 10)`. */
  function ChunkCount(n: nat): (c: nat)
    ensures c * ChunkSize >= n
    ensures c > 0 ==> (c - 1) * ChunkSize < n
    ensures c == 0 <==> n == 0
  {
    (n + ChunkSize - 1) / ChunkSize
  }

  /** Group `i` is `xs.slice(i * 10, (i + 1) * 10)`, for `i` below `ceil(|xs| / 10)`. */
  function Chunks<T>(xs: seq<T>): (cs: seq<seq<T>>)
    ensures |cs| == ChunkCount(|xs|)
    ensures forall i :: 0 <= i < |cs| - 1 ==> |cs[i]| == ChunkSize
    ensures |cs| > 0 ==> 1 <= |cs[|cs| - 1]| <= ChunkSize
  {
    var c := ChunkCount(|xs|);
    seq(c, i requires 0 <= i < c => xs[i * ChunkSize .. Min((i + 1) * ChunkSize, |xs|)])
  }

  /** Concatenation of a list of lists, in order. */
  function Flatten<T>(cs: seq<seq<T>>): seq<T> {
    if cs == [] then [] else Flatten(cs[..|cs| - 1]) + cs[|cs| - 1]
  }

  lemma {:induction false} FlattenChunksPrefix<T>(xs: seq<T>, k: nat)
    requires k <= ChunkCount(|xs|)
    ensures Flatten(Chunks(xs)[..k]) == xs[..Min(k * ChunkSize, |xs|)]
  {
    if k > 0 {
      var cs := Chunks(xs);
      FlattenChunksPrefix(xs, k - 1);
      assert cs[..k][..k - 1] == cs[..k - 1];
      assert (k - 1) * ChunkSize < |xs|;
      var lo, hi := (k - 1) * ChunkSize, Min(k * ChunkSize, |xs|);
      assert cs[k - 1] == xs[lo..hi];
      assert xs[..lo] + xs[lo..hi] == xs[..hi];
    }
  }

  /** Putting the groups back together gives the recipient list, in order. */
  lemma {:induction false} FlattenChunks<T>(xs: seq<T>)
    ensures Flatten(Chunks(xs)) == xs
  {
    var cs := Chunks(xs);
    FlattenChunksPrefix(xs, |cs|);
    assert cs[..|cs|] == cs;
  }

  /** The fee figures the grid keeps in its state. */
  datatype FeeBreakdown = FeeBreakdown(accountFees: nat, platformFees: nat, additionalFee: nat, totalFees: nat)

  /**
   * `calculateTotalFees` for `n` recipients, with `rent` the ledger's minimum
   * balance for a 165-byte token account.
   */
  function ComputeFees(n: nat, rent: nat): (f: FeeBreakdown)
    ensures f.accountFees == n * rent && f.platformFees == n * PlatformFeePerWallet
    ensures f.additionalFee == ChunkCount(n) * TipLamports + RefundBuffer
    ensures f.totalFees == f.accountFees + f.platformFees + f.additionalFee
  {
    var account := n * rent;
    var platform := n * PlatformFeePerWallet;
    var additional := ChunkCount(n) * TipLamports + RefundBuffer;
    FeeBreakdown(account, platform, additional, account + platform + additional)
  }

  /** `10 ** decimals`. */
  function Pow10(d: nat): (p: real)
    ensures p >= 1.0
  {
    if d == 0 then 1.0 else 10.0 * Pow10(d - 1)
  }

  /** Exponents add: scaling by `10 ** a` then by `10 ** b` is scaling by `10 ** (a + b)`. */
  lemma {:induction false} Pow10Add(a: nat, b: nat)
    ensures Pow10(a + b) == Pow10(a) * Pow10(b)
    decreases a
  {
    if a > 0 {
      Pow10Add(a - 1, b);
      assert a + b - 1 == (a - 1) + b;
    }
  }

  /** The token transfer paying one recipient `amount * 10 ** decimals` base units. */
  function Payout(payer: string, mint: string, r: Row, decimals: nat): Instruction {
    TokenTransfer(mint, payer, r.address, r.amount * Pow10(decimals))
  }

  /** One recipient's instructions: create its token account if missing, then pay it. */
  function RecipientInstructions(payer: string, mint: string, r: Row, decimals: nat, hasAccount: bool): seq<Instruction> {
    (if hasAccount then [] else [CreateTokenAccount(payer, r.address, mint)]) + [Payout(payer, mint, r, decimals)]
  }

  /** The recipients' instructions of one group, flattened in recipient order. */
  function GroupInstructions(payer: string, mint: string, chunk: seq<Row>, decimals: nat, hasAccount: string -> bool): seq<Instruction> {
    if chunk == [] then []
    else
      var r := chunk[|chunk| - 1];
      GroupInstructions(payer, mint, chunk[..|chunk| - 1], decimals, hasAccount)
        + RecipientInstructions(payer, mint, r, decimals, hasAccount(r.address))
  }

  /**
   * A group's transaction, in order: the compute-unit price, the platform fee
   * for the group, the recipients' instructions, and the tip.
   */
  function ChunkLayout(payer: string, mint: string, tier: Option<string>, chunk: seq<Row>, decimals: nat,
                       hasAccount: string -> bool, tip: string): seq<Instruction> {
    [SetComputeUnitPrice(TierPrice(tier)), SystemTransfer(payer, PlatformAddress, PlatformFeePerWallet * |chunk|)]
      + GroupInstructions(payer, mint, chunk, decimals, hasAccount)
      + [SystemTransfer(payer, tip, TipLamports)]
  }

  /** The token transfers among some instructions, in order. */
  function TokenTransfers(ixs: seq<Instruction>): seq<Instruction> {
    if ixs == [] then []
    else TokenTransfers(ixs[..|ixs| - 1]) + (if ixs[|ixs| - 1].TokenTransfer? then [ixs[|ixs| - 1]] else [])
  }

  /** The account creations among some instructions, in order. */
  function Creations(ixs: seq<Instruction>): seq<Instruction> {
    if ixs == [] then []
    else Creations(ixs[..|ixs| - 1]) + (if ixs[|ixs| - 1].CreateTokenAccount? then [ixs[|ixs| - 1]] else [])
  }

  /** The lamports moved by the native transfers among some instructions. */
  function NativeLamports(ixs: seq<Instruction>): nat {
    if ixs == [] then 0
    else NativeLamports(ixs[..|ixs| - 1]) + (if ixs[|ixs| - 1].SystemTransfer? then ixs[|ixs| - 1].lamports else 0)
  }

  lemma {:induction false} TokenTransfersAppend(a: seq<Instruction>, b: seq<Instruction>)
    ensures TokenTransfers(a + b) == TokenTransfers(a) + TokenTransfers(b)
  {
    if b != [] {
      assert (a + b)[..|a + b| - 1] == a + b[..|b| - 1];
      TokenTransfersAppend(a, b[..|b| - 1]);
    } else {
      assert a + b == a;
    }
  }

  lemma {:induction false} CreationsAppend(a: seq<Instruction>, b: seq<Instruction>)
    ensures Creations(a + b) == Creations(a) + Creations(b)
  {
    if b != [] {
      assert (a + b)[..|a + b| - 1] == a + b[..|b| - 1];
      CreationsAppend(a, b[..|b| - 1]);
    } else {
      assert a + b == a;
    }
  }

  lemma {:induction false} NativeLamportsAppend(a: seq<Instruction>, b: seq<Instruction>)
    ensures NativeLamports(a + b) == NativeLamports(a) + NativeLamports(b)
  {
    if b != [] {
      assert (a + b)[..|a + b| - 1] == a + b[..|b| - 1];
      NativeLamportsAppend(a, b[..|b| - 1]);
    } else {
      assert a + b == a;
    }
  }

  /** The payouts of some recipients, in order. */
  function Payouts(payer: string, mint: string, rs: seq<Row>, decimals: nat): seq<Instruction> {
    seq(|rs|, i requires 0 <= i < |rs| => Payout(payer, mint, rs[i], decimals))
  }

  /** The account creations for the recipients `hasAccount` reports missing, in order. */
  function MissingAccounts(payer: string, mint: string, rs: seq<Row>, hasAccount: string -> bool): seq<Instruction> {
    if rs == [] then []
    else
      var r := rs[|rs| - 1];
      MissingAccounts(payer, mint, rs[..|rs| - 1], hasAccount)
        + (if hasAccount(r.address) then [] else [CreateTokenAccount(payer, r.address, mint)])
  }

  /** A group's token transfers are its recipients' payouts, in order. */
  lemma {:induction false} GroupTransfers(payer: string, mint: string, chunk: seq<Row>, decimals: nat, hasAccount: string -> bool)
    ensures TokenTransfers(GroupInstructions(payer, mint, chunk, decimals, hasAccount)) == Payouts(payer, mint, chunk, decimals)
  {
    if chunk != [] {
      var front := chunk[..|chunk| - 1];
      var r := chunk[|chunk| - 1];
      GroupTransfers(payer, mint, front, decimals, hasAccount);
      var g0 := GroupInstructions(payer, mint, front, decimals, hasAccount);
      var c := if hasAccount(r.address) then [] else [CreateTokenAccount(payer, r.address, mint)];
      var p := Payout(payer, mint, r, decimals);
      TokenTransfersAppend(g0, c + [p]);
      TokenTransfersAppend(c, [p]);
      assert TokenTransfers(c) == [];
      assert chunk == front + [r];
      PayoutsAppend(payer, mint, front, [r], decimals);
      assert Payouts(payer, mint, [r], decimals) == [p];
    }
  }

  /** A group creates exactly the missing token accounts, in recipient order. */
  lemma {:induction false} GroupCreations(payer: string, mint: string, chunk: seq<Row>, decimals: nat, hasAccount: string -> bool)
    ensures Creations(GroupInstructions(payer, mint, chunk, decimals, hasAccount)) == MissingAccounts(payer, mint, chunk, hasAccount)
  {
    if chunk != [] {
      var front := chunk[..|chunk| - 1];
      var r := chunk[|chunk| - 1];
      GroupCreations(payer, mint, front, decimals, hasAccount);
      var g0 := GroupInstructions(payer, mint, front, decimals, hasAccount);
      var c := if hasAccount(r.address) then [] else [CreateTokenAccount(payer, r.address, mint)];
      var p := Payout(payer, mint, r, decimals);
      CreationsAppend(g0, c + [p]);
      CreationsAppend(c, [p]);
      assert Creations([p]) == [];
    }
  }

  /** The recipients' instructions of a group move no native lamports. */
  lemma {:induction false} GroupNative(payer: string, mint: string, chunk: seq<Row>, decimals: nat, hasAccount: string -> bool)
    ensures NativeLamports(GroupInstructions(payer, mint, chunk, decimals, hasAccount)) == 0
  {
    if chunk != [] {
      var front := chunk[..|chunk| - 1];
      var r := chunk[|chunk| - 1];
      GroupNative(payer, mint, front, decimals, hasAccount);
      var g0 := GroupInstructions(payer, mint, front, decimals, hasAccount);
      var c := if hasAccount(r.address) then [] else [CreateTokenAccount(payer, r.address, mint)];
      var p := Payout(payer, mint, r, decimals);
      NativeLamportsAppend(g0, c + [p]);
      NativeLamportsAppend(c, [p]);
      assert NativeLamports(c) == 0;
    }
  }

  /**
   * A group's transaction pays each of its recipients once, in order, creates
   * exactly the missing token accounts, in order, and moves the platform fee for
   * the group plus one tip in native lamports.
   */
  lemma {:induction false} ChunkLayoutFacts(payer: string, mint: string, tier: Option<string>, chunk: seq<Row>, decimals: nat,
                         hasAccount: string -> bool, tip: string)
    ensures var ixs := ChunkLayout(payer, mint, tier, chunk, decimals, hasAccount, tip);
      && ixs[0] == SetComputeUnitPrice(TierPrice(tier))
      && ixs[1] == SystemTransfer(payer, PlatformAddress, PlatformFeePerWallet * |chunk|)
      && ixs[|ixs| - 1] == SystemTransfer(payer, tip, TipLamports)
      && TokenTransfers(ixs) == Payouts(payer, mint, chunk, decimals)
      && Creations(ixs) == MissingAccounts(payer, mint, chunk, hasAccount)
      && NativeLamports(ixs) == PlatformFeePerWallet * |chunk| + TipLamports
  {
    var p := SetComputeUnitPrice(TierPrice(tier));
    var f := SystemTransfer(payer, PlatformAddress, PlatformFeePerWallet * |chunk|);
    var g := GroupInstructions(payer, mint, chunk, decimals, hasAccount);
    var t := SystemTransfer(payer, tip, TipLamports);
    var ixs := ChunkLayout(payer, mint, tier, chunk, decimals, hasAccount, tip);
    assert ixs == [p, f] + g + [t];
    GroupTransfers(payer, mint, chunk, decimals, hasAccount);
    GroupCreations(payer, mint, chunk, decimals, hasAccount);
    GroupNative(payer, mint, chunk, decimals, hasAccount);
    LayoutTransfers(p, f, g, t);
    LayoutCreations(p, f, g, t);
    LayoutLamports(p, f, g, t);
  }

  lemma {:induction false} LayoutTransfers(p: Instruction, f: Instruction, g: seq<Instruction>, t: Instruction)
    requires !p.TokenTransfer? && !f.TokenTransfer? && !t.TokenTransfer?
    ensures TokenTransfers([p, f] + g + [t]) == TokenTransfers(g)
  {
    TokenTransfersAppend([p, f], g);
    TokenTransfersAppend([p, f] + g, [t]);
    assert [p, f][..1] == [p];
  }

  lemma {:induction false} LayoutCreations(p: Instruction, f: Instruction, g: seq<Instruction>, t: Instruction)
    requires !p.CreateTokenAccount? && !f.CreateTokenAccount? && !t.CreateTokenAccount?
    ensures Creations([p, f] + g + [t]) == Creations(g)
  {
    CreationsAppend([p, f], g);
    CreationsAppend([p, f] + g, [t]);
    assert [p, f][..1] == [p];
  }

  lemma {:induction false} LayoutLamports(p: Instruction, f: Instruction, g: seq<Instruction>, t: Instruction)
    requires p.SetComputeUnitPrice? && f.SystemTransfer? && t.SystemTransfer?
    ensures NativeLamports([p, f] + g + [t]) == f.lamports + NativeLamports(g) + t.lamports
  {
    NativeLamportsAppend([p, f], g);
    NativeLamportsAppend([p, f] + g, [t]);
    assert [p, f][..1] == [p];
  }

  /**
   * What the ledger, the wallet and the relay answer during one submission.
   * `hasTokenAccount(k, a)` is `getAccountInfo` of `a`'s token account while
   * group `k` is built; `tipPick(k)` stands for the random choice from the tip
   * pool; `groupOk(k)` is false when building, signing or sending group `k` throws.
   */
  datatype Network = Network(
    balance: BalanceReply,
    mintOk: bool,
    hasTokenAccount: (nat, string) -> bool,
    tipAccounts: nat -> seq<string>,
    tipPick: nat -> nat,
    blockhash: nat -> string,
    groupOk: nat -> bool)

  /** Group `k` throws: a failing step, or an empty tip pool (no account to tip). */
  predicate ChunkFails(net: Network, k: nat) {
    !net.groupOk(k) || |net.tipAccounts(k)| == 0
  }

  function TipAccount(net: Network, k: nat): (a: string)
    requires |net.tipAccounts(k)| > 0
    ensures a in net.tipAccounts(k)
  {
    var pool := net.tipAccounts(k);
    pool[net.tipPick(k) % |pool|]
  }

  /** `getAccountInfo` answers while group `k` is built. */
  function AccountLookup(net: Network, k: nat): string -> bool {
    (a: string) => net.hasTokenAccount(k, a)
  }

  /** The index of the first failing group below `n`, or `n` when none fails. */
  function FirstFailure(n: nat, net: Network, from: nat): (k: nat)
    requires from <= n
    ensures from <= k <= n
    ensures forall i :: from <= i < k ==> !ChunkFails(net, i)
    ensures k < n ==> ChunkFails(net, k)
    decreases n - from
  {
    if from == n then n
    else if ChunkFails(net, from) then from
    else FirstFailure(n, net, from + 1)
  }

  /** Any index meeting the description of the first failure is the one `FirstFailure` finds. */
  lemma {:induction false} FirstFailureUnique(n: nat, net: Network, from: nat, k: nat)
    requires from <= k <= n
    requires forall i :: from <= i < k ==> !ChunkFails(net, i)
    requires k < n ==> ChunkFails(net, k)
    ensures FirstFailure(n, net, from) == k
    decreases n - from
  {
    if from < k {
      FirstFailureUnique(n, net, from + 1, k);
    }
  }

  /** What the form hands to the submit handler. */
  datatype SubmitRequest = SubmitRequest(
    publicKey: Option<string>,
    canSign: bool,
    tokenMint: string,
    recipients: seq<Row>,
    decimals: nat,
    payloadBytes: nat,
    storedFees: int,
    tier: Option<string>)

  /** A transaction as handed to the relay. */
  datatype SentTx = SentTx(instructions: seq<Instruction>, feePayer: Option<string>, recentBlockhash: Option<string>)

  /** How a submission ends; `sent` lists the groups sent, in order. */
  datatype SubmitOutcome =
    | WalletNotConnected
    | TokenNotSelected
    | NoRecipients
    | PayloadTooLarge
    | BalanceRejected(verdict: Verdict)
    | SetupFailed
    | Completed(sent: seq<SentTx>)
    | Aborted(failedChunk: nat, sent: seq<SentTx>)

  /** The checks before any group is built, in the order the handler makes them. */
  predicate ChecksPass(q: SubmitRequest, net: Network) {
    && q.publicKey.Some? && q.canSign
    && q.tokenMint != ""
    && q.recipients != []
    && q.payloadBytes <= MaxPayloadBytes
    && Passed(CheckWalletBalance(net.balance, q.storedFees))
    && net.mintOk
  }

  /** The transaction of group `k`. */
  function PlannedTx(q: SubmitRequest, net: Network, k: nat): SentTx
    requires q.publicKey.Some?
    requires k < |Chunks(q.recipients)|
    requires !ChunkFails(net, k)
  {
    var payer := q.publicKey.value;
    SentTx(
      ChunkLayout(payer, q.tokenMint, q.tier, Chunks(q.recipients)[k], q.decimals,
                  AccountLookup(net, k), TipAccount(net, k)),
      Some(payer),
      Some(net.blockhash(k)))
  }

  /** The groups sent before group `k`. */
  function SentBefore(q: SubmitRequest, net: Network, k: nat): (sent: seq<SentTx>)
    requires q.publicKey.Some?
    requires k <= |Chunks(q.recipients)|
    requires forall i :: 0 <= i < k ==> !ChunkFails(net, i)
    ensures |sent| == k
  {
    seq(k, i requires 0 <= i < k => PlannedTx(q, net, i))
  }

  /** `onSubmit` as a whole. */
  function Submission(q: SubmitRequest, net: Network): (o: SubmitOutcome)
    ensures o.Completed? || o.Aborted? <==> ChecksPass(q, net)
    ensures o == WalletNotConnected <==> q.publicKey.None? || !q.canSign
    ensures o == TokenNotSelected <==> q.publicKey.Some? && q.canSign && q.tokenMint == ""
    ensures o == NoRecipients <==> q.publicKey.Some? && q.canSign && q.tokenMint != "" && q.recipients == []
    ensures o == PayloadTooLarge <==>
      q.publicKey.Some? && q.canSign && q.tokenMint != "" && q.recipients != [] && q.payloadBytes > MaxPayloadBytes
    ensures o.BalanceRejected? <==>
      && q.publicKey.Some? && q.canSign && q.tokenMint != "" && q.recipients != [] && q.payloadBytes <= MaxPayloadBytes
      && !Passed(CheckWalletBalance(net.balance, q.storedFees))
    ensures o.BalanceRejected? ==> o.verdict == CheckWalletBalance(net.balance, q.storedFees)
    ensures o == SetupFailed <==>
      && q.publicKey.Some? && q.canSign && q.tokenMint != "" && q.recipients != [] && q.payloadBytes <= MaxPayloadBytes
      && Passed(CheckWalletBalance(net.balance, q.storedFees)) && !net.mintOk
    ensures o.Aborted? ==> o.failedChunk < ChunkCount(|q.recipients|) && |o.sent| == o.failedChunk
    ensures o.Completed? ==> |o.sent| == ChunkCount(|q.recipients|)
  {
    if q.publicKey.None? || !q.canSign then WalletNotConnected
    else if q.tokenMint == "" then TokenNotSelected
    else if q.recipients == [] then NoRecipients
    else if q.payloadBytes > MaxPayloadBytes then PayloadTooLarge
    else if !Passed(CheckWalletBalance(net.balance, q.storedFees)) then BalanceRejected(CheckWalletBalance(net.balance, q.storedFees))
    else if !net.mintOk then SetupFailed
    else
      var n := |Chunks(q.recipients)|;
      var k := FirstFailure(n, net, 0);
      if k == n then Completed(SentBefore(q, net, n)) else Aborted(k, SentBefore(q, net, k))
  }

  /**
   * Groups go out in index order and the first failure stops the loop: what was
   * sent is group `0`, group `1`, ... up to the failing one, which is the first
   * group that fails.
   */
  lemma {:induction false} SubmissionSendsPrefix(q: SubmitRequest, net: Network)
    ensures var o := Submission(q, net);
      (o.Completed? || o.Aborted?) ==>
        && q.publicKey.Some?
        && (forall i :: 0 <= i < |o.sent| ==> !ChunkFails(net, i) && o.sent[i] == PlannedTx(q, net, i))
        && (o.Aborted? ==> ChunkFails(net, o.failedChunk))
  {
  }

  /** The recipient payouts over a list of sent transactions, in order. */
  function SentPayouts(sent: seq<SentTx>): seq<Instruction> {
    if sent == [] then []
    else SentPayouts(sent[..|sent| - 1]) + TokenTransfers(sent[|sent| - 1].instructions)
  }

  /** The native lamports moved by a list of sent transactions. */
  function SentLamports(sent: seq<SentTx>): nat {
    if sent == [] then 0
    else SentLamports(sent[..|sent| - 1]) + NativeLamports(sent[|sent| - 1].instructions)
  }

  lemma {:induction false} PayoutsAppend(payer: string, mint: string, a: seq<Row>, b: seq<Row>, decimals: nat)
    ensures Payouts(payer, mint, a + b, decimals) == Payouts(payer, mint, a, decimals) + Payouts(payer, mint, b, decimals)
  {
  }

  /** Lengths of the groups, summed. */
  function SumSizes<T>(cs: seq<seq<T>>): nat {
    if cs == [] then 0 else SumSizes(cs[..|cs| - 1]) + |cs[|cs| - 1]|
  }

  lemma {:induction false} SumSizesFlatten<T>(cs: seq<seq<T>>)
    ensures SumSizes(cs) == |Flatten(cs)|
  {
    if cs != [] {
      SumSizesFlatten(cs[..|cs| - 1]);
    }
  }

  /** The last transaction sent before group `k` is group `k - 1`'s. */
  lemma {:induction false} SentBeforeStep(q: SubmitRequest, net: Network, k: nat)
    requires q.publicKey.Some?
    requires 0 < k <= |Chunks(q.recipients)|
    requires forall i :: 0 <= i < k ==> !ChunkFails(net, i)
    ensures SentBefore(q, net, k) == SentBefore(q, net, k - 1) + [PlannedTx(q, net, k - 1)]
    ensures Chunks(q.recipients)[..k] == Chunks(q.recipients)[..k - 1] + [Chunks(q.recipients)[k - 1]]
  {
    assert SentBefore(q, net, k)[..k - 1] == SentBefore(q, net, k - 1);
  }

  lemma {:induction false} SentBeforeLayout(q: SubmitRequest, net: Network, k: nat)
    requires q.publicKey.Some?
    requires k < |Chunks(q.recipients)|
    requires !ChunkFails(net, k)
    ensures var ixs := PlannedTx(q, net, k).instructions; var c := Chunks(q.recipients)[k];
      && TokenTransfers(ixs) == Payouts(q.publicKey.value, q.tokenMint, c, q.decimals)
      && NativeLamports(ixs) == PlatformFeePerWallet * |c| + TipLamports
  {
    ChunkLayoutFacts(q.publicKey.value, q.tokenMint, q.tier, Chunks(q.recipients)[k], q.decimals,
                     AccountLookup(net, k), TipAccount(net, k));
  }

  lemma {:induction false} SentBeforePayouts(q: SubmitRequest, net: Network, k: nat)
    requires q.publicKey.Some?
    requires k <= |Chunks(q.recipients)|
    requires forall i :: 0 <= i < k ==> !ChunkFails(net, i)
    ensures SentPayouts(SentBefore(q, net, k))
      == Payouts(q.publicKey.value, q.tokenMint, Flatten(Chunks(q.recipients)[..k]), q.decimals)
  {
    if k > 0 {
      var cs := Chunks(q.recipients);
      SentBeforePayouts(q, net, k - 1);
      SentBeforeStep(q, net, k);
      SentBeforeLayout(q, net, k - 1);
      PayoutsAppend(q.publicKey.value, q.tokenMint, Flatten(cs[..k - 1]), cs[k - 1], q.decimals);
    }
  }

  lemma {:induction false} SentBeforeLamports(q: SubmitRequest, net: Network, k: nat)
    requires q.publicKey.Some?
    requires k <= |Chunks(q.recipients)|
    requires forall i :: 0 <= i < k ==> !ChunkFails(net, i)
    ensures SentLamports(SentBefore(q, net, k))
      == PlatformFeePerWallet * SumSizes(Chunks(q.recipients)[..k]) + k * TipLamports
  {
    if k > 0 {
      SentBeforeLamports(q, net, k - 1);
      SentBeforeStep(q, net, k);
      SentBeforeLayout(q, net, k - 1);
    }
  }

  /**
   * A completed submission pays every recipient exactly once, in table order,
   * `amount * 10 ** decimals` base units each.
   */
  lemma {:induction false} CompletedPaysEveryone(q: SubmitRequest, net: Network)
    requires Submission(q, net).Completed?
    ensures q.publicKey.Some?
    ensures SentPayouts(Submission(q, net).sent) == Payouts(q.publicKey.value, q.tokenMint, q.recipients, q.decimals)
  {
    var cs := Chunks(q.recipients);
    SentBeforePayouts(q, net, |cs|);
    assert cs[..|cs|] == cs;
    FlattenChunks(q.recipients);
  }

  /**
   * On completion the native lamports the transactions move, plus the rent of
   * one token account per recipient and the refund buffer, are exactly the
   * estimate `calculateTotalFees` gives for that many recipients.
   */
  lemma {:induction false} CompletedMatchesEstimate(q: SubmitRequest, net: Network, rent: nat)
    requires Submission(q, net).Completed?
    ensures var n := |q.recipients|; var f := ComputeFees(n, rent);
      && SentLamports(Submission(q, net).sent) == f.platformFees + f.additionalFee - RefundBuffer
      && SentLamports(Submission(q, net).sent) + n * rent + RefundBuffer == f.totalFees
  {
    var cs := Chunks(q.recipients);
    SentBeforeLamports(q, net, |cs|);
    assert cs[..|cs|] == cs;
    FlattenChunks(q.recipients);
    SumSizesFlatten(cs);
  }

  /** The per-group platform transfers add up to the platform fee of the estimate. */
  lemma {:induction false} PlatformFeesSplit<T>(xs: seq<T>, rent: nat)
    ensures PlatformFeePerWallet * SumSizes(Chunks(xs)) == ComputeFees(|xs|, rent).platformFees
  {
    FlattenChunks(xs);
    SumSizesFlatten(Chunks(xs));
  }

  /**
   * The balance gate is fed the stored estimate; while it is still the initial
   * 0 (it is never computed below ten recipients), any balance the ledger reports
   * lets the submission through to the groups.
   */
  lemma {:induction false} UnsetEstimatePassesGate(q: SubmitRequest, net: Network)
    requires q.storedFees == 0
    requires q.publicKey.Some? && q.canSign && q.tokenMint != "" && q.recipients != []
    requires q.payloadBytes <= MaxPayloadBytes && net.mintOk
    requires net.balance.Balance?
    ensures Submission(q, net).Completed? || Submission(q, net).Aborted?
  {
  }

  /**
   * One iteration of the send loop up to signing: a fresh transaction with the
   * compute-unit price and the platform fee, then the recipients' instructions,
   * built per recipient and flattened, added one by one, then the tip; last its
   * fee payer and blockhash are set.
   */
  method BuildChunkTransaction(payer: string, mint: string, tier: Option<string>, chunk: seq<Row>, decimals: nat,
                               hasAccount: string -> bool, tip: string, blockhash: string)
    returns (tx: Transaction)
    ensures fresh(tx)
    ensures tx.instructions == ChunkLayout(payer, mint, tier, chunk, decimals, hasAccount, tip)
    ensures tx.feePayer == Some(payer) && tx.recentBlockhash == Some(blockhash)
  {
    tx := new Transaction();
    tx := AddComputeBudget(tx, tier);
    tx.Add(SystemTransfer(payer, PlatformAddress, PlatformFeePerWallet * |chunk|));
    var flat := GroupInstructions(payer, mint, chunk, decimals, hasAccount);
    ghost var head := tx.instructions;
    var j := 0;
    while j < |flat|
      invariant 0 <= j <= |flat|
      invariant fresh(tx)
      invariant tx.instructions == head + flat[..j]
    {
      assert flat[..j + 1] == flat[..j] + [flat[j]];
      tx.Add(flat[j]);
      j := j + 1;
    }
    assert flat[..j] == flat;
    tx.Add(SystemTransfer(payer, tip, TipLamports));
    tx.feePayer := Some(payer);
    tx.recentBlockhash := Some(blockhash);
  }

  /**
   * The send loop once every check has passed: groups are built and sent one
   * after another, and the first group that fails ends the loop.
   */
  method SendGroups(q: SubmitRequest, net: Network) returns (outcome: SubmitOutcome)
    requires ChecksPass(q, net)
    ensures outcome == Submission(q, net)
  {
    var payer := q.publicKey.value;
    var cs := Chunks(q.recipients);
    var sent: seq<SentTx> := [];
    var k := 0;
    while k < |cs|
      invariant 0 <= k <= |cs|
      invariant forall i :: 0 <= i < k ==> !ChunkFails(net, i)
      invariant sent == SentBefore(q, net, k)
    {
      if ChunkFails(net, k) {
        FirstFailureUnique(|cs|, net, 0, k);
        return Aborted(k, sent);
      }
      var tx := BuildChunkTransaction(payer, q.tokenMint, q.tier, cs[k], q.decimals,
                                      AccountLookup(net, k), TipAccount(net, k), net.blockhash(k));
      sent := sent + [SentTx(tx.instructions, tx.feePayer, tx.recentBlockhash)];
      SentBeforeStep(q, net, k + 1);
      k := k + 1;
    }
    FirstFailureUnique(|cs|, net, 0, |cs|);
    return Completed(sent);
  }
}
