/**
 * The multisender grid component: the recipient table and the handlers that
 * edit it, the fee estimate it keeps, and the submit handler. React state
 * becomes the fields of one object; each handler is a method that replaces
 * the fields the handler's setters replace.
 */
module Grid {
  import opened Common
  import opened Text
  import opened RecipientRows
  import opened PasteInput
  import opened WalletBalance
  import opened Batching

  class MultisenderGrid {
    /** The table (`rows`, mirrored into the form's `recipients`). */
    var rows: seq<Row>
    /** The id counter shared by every way of adding rows (`nextId`). */
    var nextId: nat
    /** The bulk-paste box and the line numbers its check reports. */
    var input: string
    var inputErrors: seq<nat>
    /** The amount typed into the change-amount drawer. */
    var newAmount: real
    /** The stored fee estimate. */
    var totalFees: nat
    var totalPlatformFees: nat
    var totalAssociatedAccountFees: nat
    var additionalFee: nat
    var isSubmitting: bool

    /** Ids are unique and below the counter; well-formed addresses appear once. */
    predicate Valid()
      reads this
    {
      IdsUnique(rows) && IdsBelow(rows, nextId) && UniqueValidAddresses(rows)
    }

    /** The stored estimate as one record. */
    function Fees(): FeeBreakdown
      reads this
    {
      FeeBreakdown(totalAssociatedAccountFees, totalPlatformFees, additionalFee, totalFees)
    }

    constructor ()
      ensures Valid()
      ensures rows == [] && nextId == 0 && input == "" && inputErrors == [] && newAmount == 0.0
      ensures Fees() == FeeBreakdown(0, 0, 0, 0) && !isSubmitting
    {
      rows := [];
      nextId := 0;
      input := "";
      inputErrors := [];
      newAmount := 0.0;
      totalFees := 0;
      totalPlatformFees := 0;
      totalAssociatedAccountFees := 0;
      additionalFee := 0;
      isSubmitting := false;
    }

    /** "New Wallet Address": an empty unsaved row with a fresh id goes on top. */
    method NewRow()
      requires Valid()
      modifies this`rows, this`nextId
      ensures Valid()
      ensures !HasId(old(rows), old(nextId))
      ensures rows == [Row(old(nextId), "", DefaultAmount, true)] + old(rows)
      ensures nextId == old(nextId) + 1
    {
      var id := nextId;
      nextId := nextId + 1;
      rows := [Row(id, "", DefaultAmount, true)] + rows;
    }

    /**
     * `handleUploadSuccess`: the well-formed records, numbered from the counter,
     * merged into the table by address. `anyAdded` chooses the notice.
     */
    method HandleUploadSuccess(items: seq<UploadItem>) returns (anyAdded: bool)
      requires Valid()
      modifies this`rows, this`nextId
      ensures Valid()
      ensures var news := UploadRows(items, old(nextId));
        && rows == MergeRows(old(rows), news)
        && nextId == old(nextId) + |news|
        && anyAdded == (news != [])
      ensures Matches(rows, old(rows) + Unseen(old(rows), UploadRows(items, old(nextId))))
      ensures forall a :: Total(rows, a) == Total(old(rows), a) + UploadTotal(items, a)
    {
      var base := nextId;
      var news := UploadRows(items, base);
      nextId := nextId + |news|;
      var merged := MergeInto(rows, news);
      UploadRowsShape(items, base);
      assert IdsUnique(news) && IdsFrom(news, base) && IdsBelow(news, nextId);
      MergeRowsIds(rows, news, base, nextId);
      MergeRowsDistinct(rows, news);
      MergeRowsShape(rows, news);
      forall a ensures Total(merged, a) == Total(rows, a) + UploadTotal(items, a) {
        MergeRowsTotal(rows, news, a);
        UploadRowsTotal(items, base, a);
      }
      rows := merged;
      anyAdded := |news| > 0;
    }

    /** Typing into the paste box: the text is kept and its lines are checked. */
    method SetInput(text: string, parse: string -> Option<real>)
      modifies this`input, this`inputErrors
      ensures input == text && inputErrors == ReportedLines(Lines(text), parse)
    {
      input := text;
      inputErrors := ValidateInput(text, parse);
    }

    /**
     * `handleAddRow`: the valid lines of the paste, repeated addresses summed
     * into the row of their first occurrence, merged into the table by address;
     * then the box is emptied, and its check runs on the empty text.
     */
    method AddPastedRows(parse: string -> Option<real>)
      requires Valid()
      modifies this`rows, this`nextId, this`input, this`inputErrors
      ensures Valid()
      ensures var c := Collapse(PasteEntries(Lines(old(input)), parse), old(nextId));
        && rows == MergeRows(old(rows), c)
        && nextId == old(nextId) + |c|
      ensures forall a :: Total(rows, a) == Total(old(rows), a) + EntryTotal(PasteEntries(Lines(old(input)), parse), a)
      ensures input == "" && inputErrors == [1]
    {
      var merged, next := AddPaste(rows, Lines(input), parse, nextId);
      rows, nextId, input, inputErrors := merged, next, "", [1];
    }

    /**
     * `processRowUpdate`: a malformed address is refused (the handler throws)
     * and nothing changes; otherwise the edit is saved as `RowUpdate` says.
     */
    method ProcessRowUpdate(edited: Row) returns (saved: bool)
      requires Valid()
      modifies this`rows
      ensures Valid()
      ensures saved <==> IsValidAddress(edited.address)
      ensures saved ==> rows == RowUpdate(old(rows), edited).value
      ensures !saved ==> rows == old(rows)
    {
      var r := RowUpdate(rows, edited);
      if r.None? {
        return false;
      }
      RowUpdateKeepsInvariants(rows, edited, nextId);
      rows := r.value;
      saved := true;
    }

    /** `handleDeleteClick`: the row with that id goes, every other row stays. */
    method DeleteRow(id: nat)
      requires Valid()
      modifies this`rows
      ensures Valid()
      ensures rows == WithoutId(old(rows), id)
      ensures !HasId(rows, id)
      ensures forall r :: r in rows <==> r in old(rows) && r.id != id
    {
      WithoutIdKeepsInvariants(rows, id, nextId);
      WithoutIdMembers(rows, id);
      rows := WithoutId(rows, id);
    }

    /**
     * `handleCancelClick`: an unknown id makes the handler throw (`found` is
     * false) and nothing changes; an unsaved new row is dropped; a saved row stays.
     */
    method CancelEdit(id: nat) returns (found: bool)
      requires Valid()
      modifies this`rows
      ensures Valid()
      ensures found <==> HasId(old(rows), id)
      ensures found ==> rows == RecipientRows.CancelEdit(old(rows), id).value
      ensures !found ==> rows == old(rows)
    {
      CancelEditCases(rows, id);
      var r := RecipientRows.CancelEdit(rows, id);
      if r.None? {
        return false;
      }
      WithoutIdKeepsInvariants(rows, id, nextId);
      rows := r.value;
      found := true;
    }

    /**
     * `handleSaveAmount`, reached only with a positive amount: every row gets the
     * new amount and nothing else about it changes; the drawer's amount resets to 0.
     */
    method SaveAmount()
      requires Valid()
      requires newAmount > 0.0
      modifies this`rows, this`newAmount
      ensures Valid()
      ensures rows == WithAmount(old(rows), old(newAmount))
      ensures Matches(rows, old(rows)) && forall i :: 0 <= i < |rows| ==> rows[i].amount == old(newAmount)
      ensures newAmount == 0.0
    {
      var updated := WithAmount(rows, newAmount);
      MatchesKeepsInvariants(updated, rows, nextId);
      rows := updated;
      newAmount := 0.0;
    }

    /**
     * `calculateTotalFees`, with `rent` the ledger's answer for a token
     * account, `None` when that query rejects: below ten recipients, or when
     * the query fails, the stored figures stay as they are.
     */
    method CalculateTotalFees(rent: Option<nat>)
      modifies this`totalAssociatedAccountFees, this`totalPlatformFees, this`additionalFee, this`totalFees
      ensures |rows| < MinRecipientsForFees || rent.None? ==> Fees() == old(Fees())
      ensures |rows| >= MinRecipientsForFees && rent.Some? ==> Fees() == ComputeFees(|rows|, rent.value)
    {
      if |rows| < MinRecipientsForFees {
        return;
      }
      if rent.None? {
        return;
      }
      var f := ComputeFees(|rows|, rent.value);
      totalAssociatedAccountFees := f.accountFees;
      totalPlatformFees := f.platformFees;
      additionalFee := f.additionalFee;
      totalFees := f.totalFees;
    }

    /** The request the form hands over: the table, and the stored estimate for the balance gate. */
    function Request(publicKey: Option<string>, canSign: bool, tokenMint: string, decimals: nat,
                     payloadBytes: nat, tier: Option<string>): SubmitRequest
      reads this
    {
      SubmitRequest(publicKey, canSign, tokenMint, rows, decimals, payloadBytes, totalFees, tier)
    }

    /**
     * `onSubmit`: the checks in order, then the groups one after another;
     * `isSubmitting` is false whichever way it ends.
     */
    method Submit(publicKey: Option<string>, canSign: bool, tokenMint: string, decimals: nat,
                  payloadBytes: nat, tier: Option<string>, net: Network) returns (outcome: SubmitOutcome)
      modifies this`isSubmitting
      ensures outcome == Submission(old(Request(publicKey, canSign, tokenMint, decimals, payloadBytes, tier)), net)
      ensures !isSubmitting
    {
      isSubmitting := true;
      var q := SubmitRequest(publicKey, canSign, tokenMint, rows, decimals, payloadBytes, totalFees, tier);
      if publicKey.None? || !canSign {
        outcome := WalletNotConnected;
      } else if tokenMint == "" {
        outcome := TokenNotSelected;
      } else if rows == [] {
        outcome := NoRecipients;
      } else if payloadBytes > MaxPayloadBytes {
        outcome := PayloadTooLarge;
      } else {
        var verdict := CheckWalletBalance(net.balance, totalFees);
        if !Passed(verdict) {
          outcome := BalanceRejected(verdict);
        } else if !net.mintOk {
          outcome := SetupFailed;
        } else {
          outcome := SendGroups(q, net);
        }
      }
      isSubmitting := false;
    }
  }

  /** After a paste is added the emptied box reports its single blank line. */
  lemma {:induction false} EmptyInputReportsLineOne(parse: string -> Option<real>)
    ensures ReportedLines(Lines(""), parse) == [1]
  {
    assert Lines("") == [""];
    BlankLineInvalid("", parse);
    var ps := ParseAll([""], parse);
    assert !Usable(ps[0]);
    assert ps[..0] == [];
    assert Reported(ps) == Reported(ps[..0]) + [1];
  }
}
