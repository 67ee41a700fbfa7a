# Solana multisender: recipient table, batch planner and helpers

This project is a Dafny model of the logic behind a web multisender. A
multisender pays one SPL token to many wallets on Solana.

- **Recipient table** (`Grid.MultisenderGrid`, over the values in
  `RecipientRows` and `PasteInput`): the grid of `(id, address, amount,
  isNew)` rows and its handlers.
  - A bulk paste is checked line by line. Its good lines are kept, and an
    address repeated within the paste is summed into one new row.
  - Uploaded records and pasted rows are merged into the table by address,
    adding amounts.
  - Inline edits, delete, cancel, "change amount" and "New Wallet Address".
- **Batch planner and submitter** (`Batching`): the fee estimate in
  lamports; the split of the recipients into groups of ten; the instruction
  list of each group's transaction; and the send loop, which stops at the
  first group that fails.
- **`addComputeBudget`** (`PriorityFees`): the stored priority tier becomes
  a compute-unit price, appended as one instruction.
- **`checkWalletBalance`** (`WalletBalance`): the balance gate.
- **`getParsedTokenAccountsByOwner` and `useTokensByWalletAll`**
  (`TokenAccounts`): token-metadata strings are cut at their first NUL and
  trimmed; one `TokenInfo` record is built per token account; and the
  hook's `tokens`/`isLoading` state is kept.

The JavaScript string operations these rely on are modelled in `Text`:
- `split` on one character;
- `trim`, with the JavaScript whitespace set;
- `split(/[\s,]+/)`.

`Ledger` holds the instruction vocabulary and the `Transaction` object that
`add` appends to in place.

The source's React state becomes the fields of `Grid.MultisenderGrid`, and
each handler becomes a method that reassigns the fields its setters
replace. The merges that add onto an existing row's amount are loops
(`RecipientRows.MergeInto`, `PasteInput.CollapseLines`). These loops are
proved equal to specification functions. The properties are lemmas about
those functions:
- each address's total is conserved;
- old rows keep their order and ids;
- new addresses are appended in first-occurrence order;
- ids stay unique;
- well-formed addresses stay unique.

Everything the outside world answers is an input of the model:
- `parseFloat` is a parameter `parse: string -> Option<real>`, where `None`
  stands for `NaN`;
- the rent figure is a parameter;
- the balance query is a `BalanceReply`;
- during submission, the per-group ledger, wallet and relay answers are a
  `Network` value;
- the metadata lookup and the HTTP fetch are functions.

The address check is modelled as the code has it: the JavaScript `length`
must be 44 (`src/sections/multisender/datagrid.tsx:83`). That length counts
UTF-16 code units, so `Text.Utf16Length` counts a character above U+FFFF
twice; for base58 text, as for any text in the Basic Multilingual Plane, it is
the number of characters. A stronger on-curve check is present in the source
but commented out, so it is not modelled.

The submission's balance gate is fed the *stored* fee estimate, as the code
does. That estimate is never computed below ten recipients, and it is left as it
was when the ledger's rent query rejects, since `calculateTotalFees` does not
catch that failure. So it can be stale or 0 at any table size
(`Batching.UnsetEstimatePassesGate`), even though the estimate looks like a
display-only value.

## Model

| member | source | states |
|---|---|---|
| Text.Split | src/sections/multisender/datagrid.tsx:407 | `split` on one character always yields at least one piece |
| Text.SplitFields | src/sections/multisender/datagrid.tsx:407 | no piece contains the separator; the first piece is the prefix of the input up to its first separator |
| Text.JoinSplit | src/sections/multisender/datagrid.tsx:407 | joining the pieces with the separator gives back the input: the lines partition the pasted text |
| Text.SplitCount | src/sections/multisender/datagrid.tsx:407 | a split has exactly one piece more than there are separators |
| Text.SplitWithout | src/actions/getParsedTokenAccountsByOwner.ts:48 | a string without the separator splits into itself alone |
| Text.Trim | src/sections/multisender/datagrid.tsx:411 | the result has no whitespace at either end, is no longer than the input, and an already trimmed string is unchanged |
| Text.TrimIsInfix | src/sections/multisender/datagrid.tsx:411 | the result sits inside the input with only whitespace before and after it |
| Text.TrimKeepsOut | src/actions/getParsedTokenAccountsByOwner.ts:48-50 | trimming introduces no character that was not there |
| Text.SeparatorRun | src/sections/multisender/datagrid.tsx:411 | the length of the maximal run of `[\s,]` characters at the front |
| Text.SplitRuns | src/sections/multisender/datagrid.tsx:411 | `split(/[\s,]+/)` always yields at least one field |
| Text.SplitRunsFields | src/sections/multisender/datagrid.tsx:411-412 | no field contains a separator; the first field is the longest separator-free prefix |
| Text.SplitRunsTail | src/sections/multisender/datagrid.tsx:411-413 | a second field exists exactly when the first stops short of the end, and the later fields are those of the text after the separator run that ends the first |
| Text.CutAtNul | src/actions/getParsedTokenAccountsByOwner.ts:48 | `split('\u0000')[0]` is a NUL-free prefix, followed in the input by a NUL when shorter |
| Text.Clean | src/actions/getParsedTokenAccountsByOwner.ts:48-50 | the cleaned string contains no NUL and has no surrounding whitespace |
| Text.Utf16Length | src/sections/multisender/datagrid.tsx:83 | the JavaScript length of a string lies between its number of characters and twice that |
| Text.Utf16LengthBmp | src/sections/multisender/datagrid.tsx:83 | a string with no character above U+FFFF, such as a base58 address, has as JavaScript length its number of characters |
| Text.Utf16LengthAstral | src/sections/multisender/datagrid.tsx:83 | a string of characters above U+FFFF has twice as many UTF-16 units as characters |
| Text.CleanIdempotent | src/actions/getParsedTokenAccountsByOwner.ts:48-50 | cleaning a cleaned string leaves it unchanged |
| Ledger.Transaction.constructor | src/sections/multisender/datagrid.tsx:283 | a new transaction has no instructions, no fee payer and no blockhash |
| Ledger.Transaction.Add | src/actions/priorityFeesIx.ts:29 | `add` appends exactly the one instruction at the end |
| PriorityFees.TierPrice | src/actions/priorityFeesIx.ts:7-23 | the price is never below the default 100000, and is the default exactly when the stored value is absent or not one of the three tiers |
| PriorityFees.PresetPrice | src/actions/priorityFeesIx.ts:10-19 | each preset tier's price is four times the number its string denotes (200000, 400000, 600000) |
| PriorityFees.TierPriceMonotone | src/actions/priorityFeesIx.ts:10-19 | a higher preset tier never gets a lower price |
| PriorityFees.AddComputeBudget | src/actions/priorityFeesIx.ts:6-31 | exactly one compute-unit-price instruction, at the tier's price, is appended; earlier instructions stay; the same transaction object is returned |
| WalletBalance.CheckWalletBalance | src/actions/checkWalletBalance.tsx:7-25 | passes exactly when the query answers and balance >= fee; insufficient (naming the fee) exactly when balance < fee; a failed query gives a failed check, not an error |
| WalletBalance.PassedMonotone | src/actions/checkWalletBalance.tsx:14-20 | a balance that passes still passes with a larger balance or a smaller fee |
| RecipientRows.FirstIndex | src/sections/multisender/datagrid.tsx:455 | `find`: the least index whose row satisfies the predicate, or -1 exactly when none does |
| RecipientRows.IndexOfAddress | src/sections/multisender/datagrid.tsx:130 | the index found has the address; -1 exactly when no row has it |
| RecipientRows.IndexOfAddressFirst | src/sections/multisender/datagrid.tsx:130 | no row before the one found has the address |
| RecipientRows.AddToAmountMatches | src/sections/multisender/datagrid.tsx:132 | `existingRow.amount += x` changes no id, address or flag, and no other row |
| RecipientRows.TotalAppend | src/sections/multisender/datagrid.tsx:134 | pushing a row adds its amount to its own address's total only |
| RecipientRows.TotalAddToAmount | src/sections/multisender/datagrid.tsx:132 | adding to one row adds to that row's address's total only |
| RecipientRows.MergeRowTotal | src/sections/multisender/datagrid.tsx:130-135 | one merge step adds the row's amount to its address's total and changes no other total |
| RecipientRows.MergeRowsTotal | src/sections/multisender/datagrid.tsx:127-137 | after a merge, each address's total is its old total plus the merged-in total |
| RecipientRows.MergeRowShape | src/sections/multisender/datagrid.tsx:130-135 | one merge step either appends the row (address unseen) or keeps the table's shape |
| RecipientRows.UnseenHasAddress | src/sections/multisender/datagrid.tsx:127-137 | the appended rows carry exactly the merged-in addresses the table did not have |
| RecipientRows.MergeRowsShape | src/sections/multisender/datagrid.tsx:127-137 | existing rows keep their order, ids and addresses; then come the unseen new rows in first-occurrence order; only amounts differ |
| RecipientRows.MergeRowDistinct | src/sections/multisender/datagrid.tsx:130-135 | one merge step keeps distinct addresses distinct |
| RecipientRows.MergeRowsDistinct | src/sections/multisender/datagrid.tsx:127-137 | distinct existing addresses stay distinct after any merge |
| RecipientRows.UnseenFromNews | src/sections/multisender/datagrid.tsx:127-137 | every appended row is one of the merged-in rows, and unique ids among them stay unique |
| RecipientRows.MergeRowsIds | src/sections/multisender/datagrid.tsx:122-137 | merging rows with fresh, distinct ids keeps ids unique and below the counter |
| RecipientRows.MatchesKeepsInvariants | src/sections/multisender/datagrid.tsx:549 | changing only amounts keeps every id and address invariant |
| RecipientRows.WithoutId | src/sections/multisender/datagrid.tsx:446 | filtering by id never lengthens the table |
| RecipientRows.WithoutIdMembers | src/sections/multisender/datagrid.tsx:446 | the filter keeps exactly the rows with another id |
| RecipientRows.WithoutAbsentId | src/sections/multisender/datagrid.tsx:446 | filtering out an id nobody has changes nothing |
| RecipientRows.WithoutUniqueId | src/sections/multisender/datagrid.tsx:446 | with unique ids, the filter removes exactly the one row with that id, keeping the others in order |
| RecipientRows.RemoveAtKeepsInvariants | src/sections/multisender/datagrid.tsx:446 | removing one row keeps ids unique and below the counter, and well-formed addresses unique |
| RecipientRows.ReplaceById | src/sections/multisender/datagrid.tsx:477 | the `map` replacing the row with that id keeps the table's length |
| RecipientRows.WithAmount | src/sections/multisender/datagrid.tsx:549 | every row gets the new amount and nothing else about any row changes |
| RecipientRows.IndexOfDuplicate | src/sections/multisender/datagrid.tsx:468-470 | the first other row with the edited address, or -1 exactly when there is none |
| RecipientRows.RowUpdateCases | src/sections/multisender/datagrid.tsx:461-481 | a malformed address is refused; a duplicate address removes the edited row after adding its amount to the other row; otherwise the edited row takes its own place as a saved row |
| RecipientRows.RemoveAtAddToAmount | src/sections/multisender/datagrid.tsx:472-473 | adding to one row and then removing another equals removing first and adding to the shifted index |
| RecipientRows.RowUpdateMergeTotal | src/sections/multisender/datagrid.tsx:471-473 | saving onto a duplicate address conserves amounts: that address gains the edited amount, other addresses keep their totals without the edited row |
| RecipientRows.MergeIntoDuplicateKeepsInvariants | src/sections/multisender/datagrid.tsx:471-473 | the duplicate case keeps ids unique and below the counter, keeps well-formed addresses unique, and keeps the address present |
| RecipientRows.ReplaceKeepsInvariants | src/sections/multisender/datagrid.tsx:476-477 | the in-place replacement keeps the invariants and puts the saved address in the table |
| RecipientRows.RowUpdateKeepsInvariants | src/sections/multisender/datagrid.tsx:461-481 | any accepted edit keeps ids unique and below the counter, keeps well-formed addresses unique, and holds the saved address |
| RecipientRows.CancelEditCases | src/sections/multisender/datagrid.tsx:455-458 | cancel fails exactly when the id is unknown, removes the row when it is new, and otherwise leaves the table alone |
| RecipientRows.UploadAmount | src/sections/multisender/datagrid.tsx:124 | `amount \|\| defaultAmount`: a non-zero amount is kept, a missing or zero one becomes 1 |
| RecipientRows.UploadRows | src/sections/multisender/datagrid.tsx:118-125 | an upload contributes at most one row per record |
| RecipientRows.UploadRowsShape | src/sections/multisender/datagrid.tsx:118-125 | the upload rows are saved rows numbered consecutively from the counter, each with a 44-character address and a non-zero amount |
| RecipientRows.UploadRowsTotal | src/sections/multisender/datagrid.tsx:118-125 | the upload rows carry, per address, exactly the amounts of the records with a well-formed address |
| RecipientRows.UploadRowsAddresses | src/sections/multisender/datagrid.tsx:118-125 | an address is among the upload rows exactly when it is well formed and some record has it |
| RecipientRows.WithoutIdKeepsInvariants | src/sections/multisender/datagrid.tsx:446 | deleting by id keeps every invariant, and the id is gone afterwards |
| RecipientRows.FindByAddress | src/sections/multisender/datagrid.tsx:130 | the front-to-back scan returns the index `IndexOfAddress` specifies |
| RecipientRows.MergeInto | src/sections/multisender/datagrid.tsx:128-136 | the merge loop computes `MergeRows` |
| PasteInput.AddressIsFirstField | src/sections/multisender/datagrid.tsx:411-412 | a line's address is the longest separator-free prefix of the trimmed line |
| PasteInput.AmountIsSecondField | src/sections/multisender/datagrid.tsx:411-414 | a line has an amount field exactly when its address stops short of the end of the trimmed line; that field is the longest separator-free prefix after the separator run following the address, and it is what is parsed, else the default amount |
| PasteInput.LineValidity | src/sections/multisender/datagrid.tsx:411-416 | a line is valid exactly when its first field has JavaScript length 44 and its second field, when present and non-empty, parses |
| PasteInput.BlankLineInvalid | src/sections/multisender/datagrid.tsx:411-416 | a blank or all-whitespace line is always invalid |
| PasteInput.ReportedSpec | src/sections/multisender/datagrid.tsx:410-419 | exactly the failing parsed lines are reported, by 1-based number, once each, in increasing order |
| PasteInput.ReportedLinesSpec | src/sections/multisender/datagrid.tsx:406-422 | `validateInput` reports exactly the invalid lines, in increasing order |
| PasteInput.ReportedStep | src/sections/multisender/datagrid.tsx:410-419 | one line further on, the report grows by that line's number exactly when the line fails |
| PasteInput.ValidateInput | src/sections/multisender/datagrid.tsx:406-422 | the `forEach` loop computes the specified report |
| PasteInput.Kept | src/sections/multisender/datagrid.tsx:503-518 | every kept entry has an address that passes the length-44 check |
| PasteInput.KeptMembers | src/sections/multisender/datagrid.tsx:503-518 | an entry is kept exactly when it is the address and amount of some line that passes the check |
| PasteInput.KeptPlusReported | src/sections/multisender/datagrid.tsx:496-518 | line n is reported by `validateInput` exactly when it fails the check; the entries `handleAddRow` keeps are exactly those of the lines not reported; and kept plus reported count the lines |
| PasteInput.Collapse | src/sections/multisender/datagrid.tsx:496-519 | a paste yields at most one new row per kept line |
| PasteInput.CollapseIds | src/sections/multisender/datagrid.tsx:509-514 | the new rows are saved rows numbered consecutively from the counter |
| PasteInput.CollapseDistinct | src/sections/multisender/datagrid.tsx:505-515 | no address appears twice among a paste's new rows |
| PasteInput.CollapseSnoc | src/sections/multisender/datagrid.tsx:496-519 | one more kept line is merged in as a row numbered after those so far |
| PasteInput.KeptPrefixStep | src/sections/multisender/datagrid.tsx:496-519 | one line further on, the kept entries grow by that line exactly when it is valid |
| PasteInput.AddLine | src/sections/multisender/datagrid.tsx:503-515 | a valid line is added onto the new row with its address, or pushed with the next id |
| PasteInput.CollapseStep | src/sections/multisender/datagrid.tsx:496-519 | one pass of the first loop extends the collapsed rows by the line when it is valid, and the counter follows |
| PasteInput.CollapseLines | src/sections/multisender/datagrid.tsx:492-519 | the first loop of `handleAddRow` computes the collapse of the valid lines |
| PasteInput.CollapseTotal | src/sections/multisender/datagrid.tsx:505-515 | per address, the new rows carry the sum of that address's pasted amounts |
| PasteInput.MergePasted | src/sections/multisender/datagrid.tsx:524-532 | merging a paste keeps ids unique and below the advanced counter, keeps well-formed addresses unique, and adds the pasted amounts per address |
| PasteInput.AddPaste | src/sections/multisender/datagrid.tsx:491-534 | `handleAddRow` on values: collapse then merge, with those invariants and that conservation |
| PasteInput.FirstOccurrencesMembers | src/sections/multisender/datagrid.tsx:505-515 | dropping repetitions keeps exactly the same addresses |
| PasteInput.MergeRowAddresses | src/sections/multisender/datagrid.tsx:526-531 | a merge step appends the row's address when it is new and otherwise leaves the addresses alone |
| PasteInput.CollapseAddresses | src/sections/multisender/datagrid.tsx:505-515 | the new rows take the pasted addresses in first-occurrence order |
| Batching.ChunkCount | src/sections/multisender/datagrid.tsx:273 | `Math.ceil(n / 10)`: the least count of groups of ten covering n, 0 exactly for n = 0 |
| Batching.Chunks | src/sections/multisender/datagrid.tsx:272-275 | ceil(n/10) groups; every group but the last has exactly 10 recipients, the last has 1 to 10 |
| Batching.FlattenChunksPrefix | src/sections/multisender/datagrid.tsx:272-275 | the first k groups, concatenated, are the first min(10k, n) recipients |
| Batching.FlattenChunks | src/sections/multisender/datagrid.tsx:272-275 | concatenating the groups gives back the recipient list in order |
| Batching.ComputeFees | src/sections/multisender/datagrid.tsx:192-201 | total = n·rent + n·1000000 + ceil(n/10)·100000 + 50000 lamports, with its three parts |
| Batching.Pow10 | src/sections/multisender/datagrid.tsx:330 | the decimals scale factor is at least 1 |
| Batching.GroupTransfers | src/sections/multisender/datagrid.tsx:299-338 | a group's token transfers are its recipients' payouts, one each, in order |
| Batching.GroupCreations | src/sections/multisender/datagrid.tsx:311-323 | a group creates exactly the token accounts reported missing, in recipient order |
| Batching.GroupNative | src/sections/multisender/datagrid.tsx:299-338 | the recipients' instructions move no native lamports |
| Batching.ChunkLayoutFacts | src/sections/multisender/datagrid.tsx:283-353 | a group's transaction starts with the compute-unit price and the platform fee and ends with the tip; it pays each recipient once, in order, creates exactly the missing accounts, and moves 1000000·size + 100000 native lamports |
| Batching.TipAccount | src/sections/multisender/datagrid.tsx:344-346 | the tip goes to a member of the pool |
| Batching.FirstFailure | src/sections/multisender/datagrid.tsx:281-365 | the least failing group index, or the group count when none fails |
| Batching.FirstFailureUnique | src/sections/multisender/datagrid.tsx:281-365 | any index that is the least failing group is the one found |
| Batching.SentBefore | src/sections/multisender/datagrid.tsx:281-365 | exactly k transactions precede group k |
| Batching.Submission | src/sections/multisender/datagrid.tsx:227-375 | groups are built exactly when every check passes; each rejection holds exactly when the checks before it passed and its own failed, in the order wallet, token, recipients, payload, balance, mint setup; a balance rejection carries the verdict of the stored fees; an abort names a group and has sent exactly the groups before it; a completion sent every group |
| Batching.SubmissionSendsPrefix | src/sections/multisender/datagrid.tsx:280-365 | what was sent is group 0, 1, … in index order, each the planned transaction; an aborted run stopped at a failing group |
| Batching.SentBeforeStep | src/sections/multisender/datagrid.tsx:281-365 | the last transaction before group k is group k-1's |
| Batching.SentBeforeLayout | src/sections/multisender/datagrid.tsx:283-353 | a planned group's transfers are its recipients' payouts, and its native lamports are the platform fee plus the tip |
| Batching.SentBeforePayouts | src/sections/multisender/datagrid.tsx:281-365 | the groups sent before k pay exactly the recipients of those groups, in order |
| Batching.SentBeforeLamports | src/sections/multisender/datagrid.tsx:281-365 | the groups sent before k move 1000000 per recipient plus one tip per group |
| Batching.CompletedPaysEveryone | src/sections/multisender/datagrid.tsx:272-365 | a completed submission pays every recipient exactly once, in table order, amount·10^decimals each |
| Batching.CompletedMatchesEstimate | src/sections/multisender/datagrid.tsx:189-206 | on completion, the lamports moved plus rent per recipient plus the refund buffer equal the estimate |
| Batching.PlatformFeesSplit | src/sections/multisender/datagrid.tsx:289-290 | the per-group platform transfers sum to the platform-fee part of the estimate |
| Batching.UnsetEstimatePassesGate | src/sections/multisender/datagrid.tsx:266-269 | with the estimate still 0, any reported balance lets the submission through to the groups |
| Batching.BuildChunkTransaction | src/sections/multisender/datagrid.tsx:283-357 | the fresh transaction holds exactly the group's planned instructions, the payer as fee payer, and the blockhash |
| Batching.SendGroups | src/sections/multisender/datagrid.tsx:280-365 | the sequential send loop computes the specified outcome |
| TokenAccounts.CleanMetadata | src/actions/getParsedTokenAccountsByOwner.ts:48-50 | name, symbol and uri come out NUL-free and trimmed; clean metadata is unchanged |
| TokenAccounts.CleanKeepsClean | src/actions/getParsedTokenAccountsByOwner.ts:48-50 | a NUL-free trimmed string is left alone by cleaning |
| TokenAccounts.CleanMetadataIdempotent | src/actions/getParsedTokenAccountsByOwner.ts:48-50 | cleaning metadata twice is cleaning it once |
| TokenAccounts.ToTokenInfo | src/actions/getParsedTokenAccountsByOwner.ts:36-78 | the account fields are copied; metadata is null exactly when the lookup fails; the JSON is fetched from the cleaned uri; the fields are overwritten only when the fetch step finished; the parsed body is kept only when the response is ok |
| TokenAccounts.GetParsedTokenAccounts | src/actions/getParsedTokenAccountsByOwner.ts:29-85 | a failed query is passed on as an error; otherwise one record per account, in response order |
| TokenAccounts.ExposedMetadata | src/actions/getParsedTokenAccountsByOwner.ts:61-67 | every exposed metadata is either fully cleaned or exactly as stored |
| TokenAccounts.TokenList.constructor | src/actions/getParsedTokenAccountsByOwner.ts:90-91 | the list starts empty and not loading |
| TokenAccounts.TokenList.Refresh | src/actions/getParsedTokenAccountsByOwner.ts:93-113 | no wallet or no connection empties the list; otherwise the list is the fetched records, or empty on failure, and loading is over |
| Grid.MultisenderGrid.constructor | src/sections/multisender/datagrid.tsx:171-187 | an empty table with all invariants, counter 0, empty paste box and zero fees |
| Grid.MultisenderGrid.NewRow | src/sections/multisender/datagrid.tsx:95-114 | prepends an unsaved row with an empty address, amount 1 and a fresh id; the counter advances |
| Grid.MultisenderGrid.HandleUploadSuccess | src/sections/multisender/datagrid.tsx:117-145 | the well-formed records, numbered from the counter, are merged by address: old rows keep their places, unseen addresses are appended, amounts are conserved, the invariants hold, and the notice depends on whether any record was kept |
| Grid.MultisenderGrid.SetInput | src/sections/multisender/datagrid.tsx:396-400 | the paste box holds the text and the error list is its report |
| Grid.MultisenderGrid.AddPastedRows | src/sections/multisender/datagrid.tsx:491-537 | the paste is collapsed and merged by address with amounts conserved and invariants kept; the box is emptied |
| Grid.MultisenderGrid.ProcessRowUpdate | src/sections/multisender/datagrid.tsx:461-481 | saved exactly when the address has 44 characters, with the table then as `RowUpdate` says; a refused edit changes nothing; invariants hold |
| Grid.MultisenderGrid.DeleteRow | src/sections/multisender/datagrid.tsx:445-447 | exactly the rows with that id are removed; invariants hold |
| Grid.MultisenderGrid.CancelEdit | src/sections/multisender/datagrid.tsx:449-459 | fails exactly for an unknown id and changes nothing then; an unsaved row is dropped; invariants hold |
| Grid.MultisenderGrid.SaveAmount | src/sections/multisender/datagrid.tsx:547-553 | every row gets the new amount and nothing else changes; the drawer's amount resets to 0 |
| Grid.MultisenderGrid.CalculateTotalFees | src/sections/multisender/datagrid.tsx:189-206 | below ten recipients, or when the rent query rejects, the stored figures stay; otherwise they become the estimate |
| Grid.MultisenderGrid.Submit | src/sections/multisender/datagrid.tsx:227-375 | the outcome is the specified submission of the current table and stored estimate; `isSubmitting` ends false |
| Grid.EmptyInputReportsLineOne | src/sections/multisender/datagrid.tsx:535 | once a paste is added, the emptied box reports its single blank line, line 1 |

## Left out

- Floating point: amounts are `real`. `parseFloat` is the parameter `parse`, and the rounding of `amount * 10 ** decimals` is not modelled.
- The constants `0.001 * LAMPORTS_PER_SOL` and `0.0001 * LAMPORTS_PER_SOL` are the integers 1000000 and 100000.
- The payload's JSON byte size is an input (`payloadBytes`); `JSON.stringify` and `Blob` are not modelled.
- Key derivation (`getAssociatedTokenAddress`, the metadata PDA) and instruction encoding are not modelled: an instruction records only payer, owner, receiver and amount.
- Signing, base58 serialisation and `sendBundle` are one per-group outcome in `Network.groupOk`.
- `getTipAccounts` is a per-group pool value in `Network.tipAccounts`, and the random pick is an arbitrary index into it. An empty pool counts as a failing group.
- `getLatestBlockhash` is `Network.blockhash`; `getAccountInfo` is `Network.hasTokenAccount`; the source token account and mint setup are one flag, `Network.mintOk`.
- `getMinimumBalanceForRentExemption(165)` is the parameter `rent` of `CalculateTotalFees`, `None` when the query rejects.
- Toasts, console output and the row-modes model (edit/view mode of each row) are not modelled; the notice an upload raises is the returned `anyAdded`.
- The 1-second debounce and React effect timing are not modelled. `CalculateTotalFees` is a method the caller invokes.
- `validateInput` runs on every change of the box through `SetInput`. After a paste the emptied box's errors are set directly to its report, `[1]` (`Grid.EmptyInputReportsLineOne`).
- The form's `recipients` mirror of the table is identified with `rows`.
- `Grid.MultisenderGrid.AddPastedRows` and `Grid.MultisenderGrid.HandleUploadSuccess`: the merges add onto the same row objects the previous state held, and the model works on values. So the previous state's rows are not shown mutated (aliasing is not modelled), and the final table is the same.
- `Grid.MultisenderGrid.ProcessRowUpdate`: the duplicate case likewise adds onto the other row in place; the grid's own display of the returned `newRow` is not modelled.
- The module-level `nextId` counter is the field `nextId`, shared by new rows, uploads and pastes.
- `Grid.MultisenderGrid.CancelEdit`: an unknown id makes the source throw a `TypeError` at `editedRow!.isNew`. This is modelled as `found == false` with the table unchanged.
- `handleChangeAmount`, `handleEditClick`, `handleSaveClick`, `handleRowEditStop` and the drawers are not modelled: they only change UI mode or copy a typed value into `newAmount`.
- `Grid.MultisenderGrid.SaveAmount` requires a positive amount, the drawer's guard in `src/sections/multisender/components/change-amount-drawer.tsx`.
- `invalidRows` in `handleAddRow` and `totalTokenAmount` in `onSubmit` are computed but never used, so they are not modelled.
- The upload's HTTP request and CSV parsing are not visible in the source. The upload is the list of records it returns, and a missing amount is `None`. A `NaN` or empty-string amount, which `||` also replaces by 1, is not distinguished.
- `uiAmount`, which the ledger may give as null, is an `Option<real>`. Metadata and JSON bodies are opaque: the JSON body is a `string`.
- Authentication, session handling, `sendPlatformFee`, the wallet context and rendering are not part of this model.
- `TokenAccounts.TokenList.Refresh`: one run of the effect is modelled from start to completion. Overlapping runs are not: the effect has no cleanup or cancellation, so a fetch still pending when the wallet disconnects can later overwrite the emptied `tokens`, and `isLoading` stays true in between.
- The whitespace and separator classes and `split` work on characters, where JavaScript works on UTF-16 units; the two agree for separators in the Basic Multilingual Plane, which all of them are.
- The default tier the wallet context stores is only an input to `PriorityFees.TierPrice`.
