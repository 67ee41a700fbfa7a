/**
 * The recipient table of the multisender grid as a value: rows, the address
 * check, and the merge-by-address that pastes, uploads and row edits share.
 * Every fold here recurses on the LAST element, the order in which the
 * handlers' `forEach` loops visit their input.
 */
module RecipientRows {
  import opened Common
  import opened Text

  /** Length of a base58 public key, in UTF-16 code units, as `isValidSolanaAddress` checks it. */
  const AddressLength: nat := 44

  /** Amount given to a recipient whose amount is missing. */
  const DefaultAmount: real := 1.0

  /** `isValidSolanaAddress` as written: only the JavaScript length is checked. */
  predicate IsValidAddress(a: string) {
    Utf16Length(a) == AddressLength
  }

  /** One line of the grid. `isNew` marks a row added by "New Wallet Address" and not yet saved. */
  datatype Row = Row(id: nat, address: string, amount: real, isNew: bool)

  /** The same row apart from its amount. */
  predicate SameButAmount(r: Row, s: Row) {
    r.id == s.id && r.address == s.address && r.isNew == s.isNew
  }

  /** Two tables that agree row by row on everything but the amounts. */
  predicate Matches(xs: seq<Row>, ys: seq<Row>) {
    |xs| == |ys| && forall i :: 0 <= i < |xs| ==> SameButAmount(xs[i], ys[i])
  }

  predicate HasAddress(rs: seq<Row>, a: string) {
    exists i :: 0 <= i < |rs| && rs[i].address == a
  }

  predicate HasId(rs: seq<Row>, id: nat) {
    exists i :: 0 <= i < |rs| && rs[i].id == id
  }

  /** No two rows share an address. */
  predicate DistinctAddresses(rs: seq<Row>) {
    forall i, j :: 0 <= i < j < |rs| ==> rs[i].address != rs[j].address
  }

  /** No two rows share a well-formed address (unsaved rows with an empty address may repeat). */
  predicate UniqueValidAddresses(rs: seq<Row>) {
    forall i, j :: 0 <= i < j < |rs| && IsValidAddress(rs[i].address) ==> rs[i].address != rs[j].address
  }

  predicate IdsUnique(rs: seq<Row>) {
    forall i, j :: 0 <= i < j < |rs| ==> rs[i].id != rs[j].id
  }

  predicate IdsBelow(rs: seq<Row>, n: nat) {
    forall i :: 0 <= i < |rs| ==> rs[i].id < n
  }

  predicate IdsFrom(rs: seq<Row>, n: nat) {
    forall i :: 0 <= i < |rs| ==> n <= rs[i].id
  }

  /** Row `k` of `rs` is a saved row with id `base + k`. */
  predicate NumberedFrom(rs: seq<Row>, base: nat) {
    forall k :: 0 <= k < |rs| ==> rs[k].id == base + k && !rs[k].isNew
  }

  /** Index of the first row satisfying `p`, as `Array.prototype.find` picks it, or -1. */
  function FirstIndex(rs: seq<Row>, p: Row -> bool): (k: int)
    ensures -1 <= k < |rs|
    ensures k == -1 <==> forall i :: 0 <= i < |rs| ==> !p(rs[i])
    ensures 0 <= k ==> p(rs[k]) && forall i :: 0 <= i < k ==> !p(rs[i])
  {
    if rs == [] then -1
    else if p(rs[0]) then 0
    else
      var k := FirstIndex(rs[1..], p);
      if k == -1 then -1 else k + 1
  }

  /** `find((row) => row.walletAddress === a)`: the index of the first row with address `a`, or -1. */
  function IndexOfAddress(rs: seq<Row>, a: string): (k: int)
    ensures -1 <= k < |rs|
    ensures k == -1 <==> !HasAddress(rs, a)
    ensures 0 <= k ==> rs[k].address == a
  {
    if rs == [] then -1
    else if rs[0].address == a then 0
    else
      var k := IndexOfAddress(rs[1..], a);
      if k == -1 then -1 else k + 1
  }

  /** No row before the one found has address `a`. */
  lemma {:induction false} IndexOfAddressFirst(rs: seq<Row>, a: string)
    ensures forall i :: 0 <= i < IndexOfAddress(rs, a) ==> rs[i].address != a
  {
    if rs != [] && rs[0].address != a {
      IndexOfAddressFirst(rs[1..], a);
      assert forall i :: 1 <= i < |rs| ==> rs[i] == rs[1..][i - 1];
    }
  }

  /** Adds `x` to the amount of row `k`, as `existingRow.amount += x` does. */
  function AddToAmount(rs: seq<Row>, k: nat, x: real): (r: seq<Row>)
    requires k < |rs|
  {
    rs[k := rs[k].(amount := rs[k].amount + x)]
  }

  /** Adding to one row's amount changes nothing else about the table. */
  lemma {:induction false} AddToAmountMatches(rs: seq<Row>, k: nat, x: real)
    requires k < |rs|
    ensures Matches(AddToAmount(rs, k, x), rs)
  {
    var m := AddToAmount(rs, k, x);
    assert forall i :: 0 <= i < |m| ==> SameButAmount(m[i], rs[i]);
  }

  /** Merge one row into a table by address: add to the first row with that address, or append. */
  function MergeRow(acc: seq<Row>, r: Row): seq<Row> {
    var k := IndexOfAddress(acc, r.address);
    if k == -1 then acc + [r] else AddToAmount(acc, k, r.amount)
  }

  /** Merge rows one after another, in order. */
  function MergeRows(acc: seq<Row>, news: seq<Row>): seq<Row>
    decreases |news|
  {
    if news == [] then acc else MergeRow(MergeRows(acc, news[..|news| - 1]), news[|news| - 1])
  }

  /** The sum of the amounts of the rows with address `a`. */
  function Total(rs: seq<Row>, a: string): real {
    if rs == [] then 0.0
    else Total(rs[..|rs| - 1], a) + (if rs[|rs| - 1].address == a then rs[|rs| - 1].amount else 0.0)
  }

  /** The rows of `news` whose address is neither in `acc` nor earlier in `news`: the rows a merge appends. */
  function Unseen(acc: seq<Row>, news: seq<Row>): seq<Row>
    decreases |news|
  {
    if news == [] then []
    else
      var front, r := news[..|news| - 1], news[|news| - 1];
      Unseen(acc, front) + (if HasAddress(acc, r.address) || HasAddress(front, r.address) then [] else [r])
  }

  // ----- facts about the merge -----

  lemma {:induction false} TotalAppend(rs: seq<Row>, r: Row, a: string)
    ensures Total(rs + [r], a) == Total(rs, a) + (if r.address == a then r.amount else 0.0)
  {
    assert (rs + [r])[..|rs|] == rs;
  }

  /** Adding to one row's amount adds to the total of that row's address only. */
  lemma {:induction false} TotalAddToAmount(rs: seq<Row>, k: nat, x: real, a: string)
    requires k < |rs|
    ensures Total(AddToAmount(rs, k, x), a) == Total(rs, a) + (if rs[k].address == a then x else 0.0)
  {
    var n := |rs|;
    var rs' := AddToAmount(rs, k, x);
    if k == n - 1 {
      assert rs'[..n - 1] == rs[..n - 1];
    } else {
      assert rs'[..n - 1] == AddToAmount(rs[..n - 1], k, x);
      TotalAddToAmount(rs[..n - 1], k, x, a);
    }
  }

  lemma {:induction false} MergeRowTotal(acc: seq<Row>, r: Row, a: string)
    ensures Total(MergeRow(acc, r), a) == Total(acc, a) + (if r.address == a then r.amount else 0.0)
  {
    var k := IndexOfAddress(acc, r.address);
    if k == -1 {
      TotalAppend(acc, r, a);
    } else {
      TotalAddToAmount(acc, k, r.amount, a);
    }
  }

  /** Merging conserves amounts: each address ends with its old total plus the merged-in total. */
  lemma {:induction false} MergeRowsTotal(acc: seq<Row>, news: seq<Row>, a: string)
    ensures Total(MergeRows(acc, news), a) == Total(acc, a) + Total(news, a)
    decreases |news|
  {
    if news != [] {
      var front := news[..|news| - 1];
      MergeRowsTotal(acc, front, a);
      MergeRowTotal(MergeRows(acc, front), news[|news| - 1], a);
    }
  }

  lemma {:induction false} MatchesHasAddress(xs: seq<Row>, ys: seq<Row>, a: string)
    requires Matches(xs, ys)
    ensures HasAddress(xs, a) <==> HasAddress(ys, a)
  {
    if HasAddress(xs, a) {
      var i :| 0 <= i < |xs| && xs[i].address == a;
      assert ys[i].address == a;
    }
    if HasAddress(ys, a) {
      var i :| 0 <= i < |ys| && ys[i].address == a;
      assert xs[i].address == a;
    }
  }

  lemma {:induction false} HasAddressAppend(xs: seq<Row>, ys: seq<Row>, a: string)
    ensures HasAddress(xs + ys, a) <==> HasAddress(xs, a) || HasAddress(ys, a)
  {
    if HasAddress(xs + ys, a) {
      var i :| 0 <= i < |xs + ys| && (xs + ys)[i].address == a;
      if i >= |xs| { assert ys[i - |xs|].address == a; }
    }
    if HasAddress(ys, a) {
      var i :| 0 <= i < |ys| && ys[i].address == a;
      assert (xs + ys)[|xs| + i].address == a;
    }
    if HasAddress(xs, a) {
      var i :| 0 <= i < |xs| && xs[i].address == a;
      assert (xs + ys)[i].address == a;
    }
  }

  lemma {:induction false} MergeRowShape(acc: seq<Row>, r: Row)
    ensures Matches(MergeRow(acc, r), acc + (if HasAddress(acc, r.address) then [] else [r]))
  {
    var k := IndexOfAddress(acc, r.address);
    if k != -1 {
      AddToAmountMatches(acc, k, r.amount);
    }
  }

  /** What a merge appends: the rows of `news` with an address `acc` does not have, first occurrences only. */
  lemma {:induction false} UnseenHasAddress(acc: seq<Row>, news: seq<Row>, a: string)
    ensures HasAddress(Unseen(acc, news), a) <==> !HasAddress(acc, a) && HasAddress(news, a)
    decreases |news|
  {
    if news != [] {
      var front, r := news[..|news| - 1], news[|news| - 1];
      UnseenHasAddress(acc, front, a);
      var tail := if HasAddress(acc, r.address) || HasAddress(front, r.address) then [] else [r];
      HasAddressAppend(Unseen(acc, front), tail, a);
      assert news == front + [r];
      HasAddressAppend(front, [r], a);
      assert HasAddress([r], a) <==> r.address == a by {
        if r.address == a { assert [r][0].address == a; }
      }
    }
  }

  lemma {:induction false} MatchesAppend(xs: seq<Row>, ys: seq<Row>, zs: seq<Row>)
    requires Matches(xs, ys)
    ensures Matches(xs + zs, ys + zs)
  {
  }

  lemma {:induction false} MatchesTrans(xs: seq<Row>, ys: seq<Row>, zs: seq<Row>)
    requires Matches(xs, ys) && Matches(ys, zs)
    ensures Matches(xs, zs)
  {
  }

  /**
   * The shape of a merge: the old rows in their old order with their ids,
   * then the unseen rows of `news` in first-occurrence order; only amounts differ.
   */
  lemma {:induction false} MergeRowsShape(acc: seq<Row>, news: seq<Row>)
    ensures Matches(MergeRows(acc, news), acc + Unseen(acc, news))
    decreases |news|
  {
    if news == [] {
      assert acc + [] == acc;
    } else {
      var front, r := news[..|news| - 1], news[|news| - 1];
      var m := MergeRows(acc, front);
      var u := Unseen(acc, front);
      MergeRowsShape(acc, front);
      MatchesHasAddress(m, acc + u, r.address);
      HasAddressAppend(acc, u, r.address);
      UnseenHasAddress(acc, front, r.address);
      var tail := if HasAddress(acc, r.address) || HasAddress(front, r.address) then [] else [r];
      assert HasAddress(m, r.address) <==> HasAddress(acc, r.address) || HasAddress(front, r.address);
      MergeRowShape(m, r);
      MatchesAppend(m, acc + u, tail);
      assert acc + u + tail == acc + Unseen(acc, news);
      MatchesTrans(MergeRow(m, r), m + tail, acc + Unseen(acc, news));
    }
  }

  /** A merge step keeps addresses distinct, both in general and among well-formed addresses. */
  lemma {:induction false} MergeRowDistinct(acc: seq<Row>, r: Row)
    ensures DistinctAddresses(acc) ==> DistinctAddresses(MergeRow(acc, r))
    ensures UniqueValidAddresses(acc) ==> UniqueValidAddresses(MergeRow(acc, r))
  {
    var k := IndexOfAddress(acc, r.address);
    if k == -1 {
      var m := acc + [r];
      forall i | 0 <= i < |acc| ensures m[i].address != m[|acc|].address {
        assert m[i] == acc[i];
      }
    }
  }

  /** Distinct addresses in the table stay distinct however many rows are merged in. */
  lemma {:induction false} MergeRowsDistinct(acc: seq<Row>, news: seq<Row>)
    ensures DistinctAddresses(acc) ==> DistinctAddresses(MergeRows(acc, news))
    ensures UniqueValidAddresses(acc) ==> UniqueValidAddresses(MergeRows(acc, news))
    decreases |news|
  {
    if news != [] {
      var front := news[..|news| - 1];
      MergeRowsDistinct(acc, front);
      MergeRowDistinct(MergeRows(acc, front), news[|news| - 1]);
    }
  }

  lemma {:induction false} UnseenFromNews(acc: seq<Row>, news: seq<Row>)
    ensures forall i :: 0 <= i < |Unseen(acc, news)| ==> Unseen(acc, news)[i] in news
    ensures IdsUnique(news) ==> IdsUnique(Unseen(acc, news))
    decreases |news|
  {
    if news != [] {
      var front, r := news[..|news| - 1], news[|news| - 1];
      UnseenFromNews(acc, front);
      var u := Unseen(acc, front);
      forall i | 0 <= i < |u| ensures u[i] in news {
        assert u[i] in front;
      }
      if IdsUnique(news) {
        forall i | 0 <= i < |u| ensures u[i].id != r.id {
          var j :| 0 <= j < |front| && front[j] == u[i];
          assert news[j] == u[i];
        }
      }
    }
  }

  /**
   * Ids stay unique when the merged rows carry fresh ids ([lo, hi)) that are
   * unique among themselves, and every id is then below `hi`.
   */
  lemma {:induction false} MergeRowsIds(acc: seq<Row>, news: seq<Row>, lo: nat, hi: nat)
    requires IdsUnique(acc) && IdsBelow(acc, lo)
    requires IdsUnique(news) && IdsFrom(news, lo) && IdsBelow(news, hi) && lo <= hi
    ensures IdsUnique(MergeRows(acc, news)) && IdsBelow(MergeRows(acc, news), hi)
  {
    var m := MergeRows(acc, news);
    var u := Unseen(acc, news);
    MergeRowsShape(acc, news);
    UnseenFromNews(acc, news);
    var t := acc + u;
    forall i | 0 <= i < |u| ensures lo <= u[i].id < hi {
      var j :| 0 <= j < |news| && news[j] == u[i];
    }
    forall i, j | 0 <= i < j < |m| ensures m[i].id != m[j].id {
      assert m[i].id == t[i].id && m[j].id == t[j].id;
      if j < |acc| {
      } else if i >= |acc| {
        assert t[i] == u[i - |acc|] && t[j] == u[j - |acc|];
      } else {
        assert t[j] == u[j - |acc|];
      }
    }
    forall i | 0 <= i < |m| ensures m[i].id < hi {
      assert m[i].id == t[i].id;
      if i >= |acc| { assert t[i] == u[i - |acc|]; }
    }
  }

  // ----- the other table edits -----

  lemma {:induction false} MatchesKeepsInvariants(xs: seq<Row>, ys: seq<Row>, n: nat)
    requires Matches(xs, ys)
    ensures IdsUnique(xs) <==> IdsUnique(ys)
    ensures IdsBelow(xs, n) <==> IdsBelow(ys, n)
    ensures UniqueValidAddresses(xs) <==> UniqueValidAddresses(ys)
    ensures DistinctAddresses(xs) <==> DistinctAddresses(ys)
  {
  }

  /** `rows.filter((row) => row.id !== id)`. */
  function WithoutId(rs: seq<Row>, id: nat): (r: seq<Row>)
    ensures |r| <= |rs|
  {
    if rs == [] then []
    else WithoutId(rs[..|rs| - 1], id) + (if rs[|rs| - 1].id == id then [] else [rs[|rs| - 1]])
  }

  /** The filter keeps exactly the rows with another id. */
  lemma {:induction false} WithoutIdMembers(rs: seq<Row>, id: nat)
    ensures forall x :: x in WithoutId(rs, id) <==> x in rs && x.id != id
  {
    if rs != [] {
      var front, last := rs[..|rs| - 1], rs[|rs| - 1];
      WithoutIdMembers(front, id);
      assert rs == front + [last];
    }
  }

  /** The table with the row at index `k` taken out. */
  function RemoveAt(rs: seq<Row>, k: nat): seq<Row>
    requires k < |rs|
  {
    rs[..k] + rs[k + 1..]
  }

  /** Removing one row keeps the address of every other row. */
  lemma {:induction false} RemoveAtKeepsAddress(rs: seq<Row>, j: nat, k: nat)
    requires j < |rs| && k < |rs| && j != k
    ensures HasAddress(RemoveAt(rs, j), rs[k].address)
  {
    var r := RemoveAt(rs, j);
    var k' := if k < j then k else k - 1;
    assert r[k'] == rs[k];
  }

  lemma {:induction false} WithoutAbsentId(rs: seq<Row>, id: nat)
    requires !HasId(rs, id)
    ensures WithoutId(rs, id) == rs
  {
    if rs != [] {
      var front := rs[..|rs| - 1];
      assert !HasId(front, id);
      WithoutAbsentId(front, id);
      assert rs[|rs| - 1].id != id;
      assert front + [rs[|rs| - 1]] == rs;
    }
  }

  /** With unique ids, filtering out an id removes exactly the one row that has it. */
  lemma {:induction false} WithoutUniqueId(rs: seq<Row>, k: nat)
    requires IdsUnique(rs) && k < |rs|
    ensures WithoutId(rs, rs[k].id) == RemoveAt(rs, k)
  {
    var n := |rs|;
    var id := rs[k].id;
    var front, last := rs[..n - 1], rs[n - 1];
    assert rs == front + [last];
    if k == n - 1 {
      assert !HasId(front, id);
      WithoutAbsentId(front, id);
      assert RemoveAt(rs, k) == front;
    } else {
      assert front[k].id == id;
      WithoutUniqueId(front, k);
      assert last.id != id;
      assert RemoveAt(front, k) + [last] == RemoveAt(rs, k);
    }
  }

  /** Taking a row out keeps every invariant of the table. */
  lemma {:induction false} RemoveAtKeepsInvariants(rs: seq<Row>, k: nat, n: nat)
    requires k < |rs|
    ensures IdsUnique(rs) ==> IdsUnique(RemoveAt(rs, k))
    ensures IdsBelow(rs, n) ==> IdsBelow(RemoveAt(rs, k), n)
    ensures UniqueValidAddresses(rs) ==> UniqueValidAddresses(RemoveAt(rs, k))
  {
    var r := RemoveAt(rs, k);
    assert forall i :: 0 <= i < |r| ==> r[i] == rs[if i < k then i else i + 1];
  }

  /** `rows.map((row) => (row.id === id ? x : row))`. */
  function ReplaceById(rs: seq<Row>, id: nat, x: Row): (r: seq<Row>)
    ensures |r| == |rs|
  {
    seq(|rs|, i requires 0 <= i < |rs| => if rs[i].id == id then x else rs[i])
  }

  /** `prevRows.map((row) => ({ ...row, amount: x }))`. */
  function WithAmount(rs: seq<Row>, x: real): (r: seq<Row>)
    ensures Matches(r, rs)
    ensures forall i :: 0 <= i < |r| ==> r[i].amount == x
  {
    seq(|rs|, i requires 0 <= i < |rs| => rs[i].(amount := x))
  }

  /** The first row, other than the edited one, that already has the edited row's address. */
  function IndexOfDuplicate(rs: seq<Row>, edited: Row): (k: int)
    ensures -1 <= k < |rs|
    ensures k == -1 <==> forall i :: 0 <= i < |rs| ==> rs[i].address != edited.address || rs[i].id == edited.id
    ensures 0 <= k ==> rs[k].address == edited.address && rs[k].id != edited.id
  {
    var p := (r: Row) => r.address == edited.address && r.id != edited.id;
    var k := FirstIndex(rs, p);
    assert k == -1 ==> forall i :: 0 <= i < |rs| ==> !p(rs[i]);
    k
  }

  /**
   * `processRowUpdate`: `None` when the edited address is malformed (the handler
   * throws); otherwise the edited row is folded into another row with the same
   * address, or replaces itself in place as a saved row.
   */
  function RowUpdate(rs: seq<Row>, edited: Row): Option<seq<Row>> {
    if !IsValidAddress(edited.address) then None
    else
      var k := IndexOfDuplicate(rs, edited);
      if k == -1 then Some(ReplaceById(rs, edited.id, edited.(isNew := false)))
      else Some(WithoutId(AddToAmount(rs, k, edited.amount), edited.id))
  }

  /**
   * Saving an edited row: a malformed address changes nothing; a duplicate
   * address removes the edited row and adds its amount to the other row;
   * otherwise the edited row takes its own place, saved.
   */
  lemma {:induction false} RowUpdateCases(rs: seq<Row>, edited: Row, j: nat)
    requires IdsUnique(rs) && j < |rs| && rs[j].id == edited.id
    ensures !IsValidAddress(edited.address) ==> RowUpdate(rs, edited) == None
    ensures IsValidAddress(edited.address) && IndexOfDuplicate(rs, edited) >= 0 ==>
      var k := IndexOfDuplicate(rs, edited);
      RowUpdate(rs, edited) == Some(RemoveAt(AddToAmount(rs, k, edited.amount), j))
    ensures IsValidAddress(edited.address) && IndexOfDuplicate(rs, edited) == -1 ==>
      RowUpdate(rs, edited) == Some(rs[j := edited.(isNew := false)])
  {
    var k := IndexOfDuplicate(rs, edited);
    if IsValidAddress(edited.address) {
      if k >= 0 {
        var added := AddToAmount(rs, k, edited.amount);
        MatchesKeepsInvariants(added, rs, 0);
        WithoutUniqueId(added, j);
      } else {
        var r := ReplaceById(rs, edited.id, edited.(isNew := false));
        assert forall i :: 0 <= i < |rs| && i != j ==> rs[i].id != edited.id;
        assert r == rs[j := edited.(isNew := false)];
      }
    }
  }

  lemma {:induction false} RemoveAtAddToAmount(rs: seq<Row>, k: nat, x: real, j: nat)
    requires k < |rs| && j < |rs| && k != j
    ensures var k' := if k < j then k else k - 1;
      k' < |RemoveAt(rs, j)| && RemoveAt(AddToAmount(rs, k, x), j) == AddToAmount(RemoveAt(rs, j), k', x)
  {
  }

  /**
   * Saving an edit onto a duplicate address conserves amounts: that address
   * gains the edited amount, every other address keeps the total it had
   * without the edited row.
   */
  lemma {:induction false} RowUpdateMergeTotal(rs: seq<Row>, edited: Row, j: nat, b: string)
    requires IdsUnique(rs) && j < |rs| && rs[j].id == edited.id
    requires IsValidAddress(edited.address) && IndexOfDuplicate(rs, edited) >= 0
    ensures Total(RowUpdate(rs, edited).value, b) ==
      Total(RemoveAt(rs, j), b) + (if b == edited.address then edited.amount else 0.0)
  {
    var k := IndexOfDuplicate(rs, edited);
    RowUpdateCases(rs, edited, j);
    RemoveAtAddToAmount(rs, k, edited.amount, j);
    var k' := if k < j then k else k - 1;
    assert RemoveAt(rs, j)[k'] == rs[k];
    TotalAddToAmount(RemoveAt(rs, j), k', edited.amount, b);
  }

  lemma {:induction false} MergeIntoDuplicateKeepsInvariants(rs: seq<Row>, edited: Row, k: nat, n: nat)
    requires IdsUnique(rs) && IdsBelow(rs, n) && UniqueValidAddresses(rs)
    requires k < |rs| && rs[k].address == edited.address && rs[k].id != edited.id
    ensures var r := WithoutId(AddToAmount(rs, k, edited.amount), edited.id);
      IdsUnique(r) && IdsBelow(r, n) && UniqueValidAddresses(r) && HasAddress(r, edited.address)
  {
    var added := AddToAmount(rs, k, edited.amount);
    var r := WithoutId(added, edited.id);
    AddToAmountMatches(rs, k, edited.amount);
    MatchesKeepsInvariants(added, rs, n);
    assert added[k].address == edited.address;
    if HasId(rs, edited.id) {
      var j :| 0 <= j < |rs| && rs[j].id == edited.id;
      assert added[j].id == edited.id;
      assert j != k;
      WithoutUniqueId(added, j);
      RemoveAtKeepsInvariants(added, j, n);
      RemoveAtKeepsAddress(added, j, k);
    } else {
      assert !HasId(added, edited.id);
      WithoutAbsentId(added, edited.id);
      assert r[k].address == edited.address;
    }
  }

  lemma {:induction false} ReplaceKeepsInvariants(rs: seq<Row>, x: Row, n: nat)
    requires IdsUnique(rs) && IdsBelow(rs, n) && UniqueValidAddresses(rs)
    requires forall i :: 0 <= i < |rs| ==> rs[i].address != x.address || rs[i].id == x.id
    ensures var r := ReplaceById(rs, x.id, x);
      IdsUnique(r) && IdsBelow(r, n) && UniqueValidAddresses(r)
      && (HasId(rs, x.id) ==> HasAddress(r, x.address))
  {
    var r := ReplaceById(rs, x.id, x);
    assert forall i :: 0 <= i < |rs| ==> r[i] == if rs[i].id == x.id then x else rs[i];
    forall i, j | 0 <= i < j < |r| && IsValidAddress(r[i].address) ensures r[i].address != r[j].address {
      if rs[i].id == x.id {
        assert rs[j].id != x.id;
      }
    }
    if HasId(rs, x.id) {
      var j :| 0 <= j < |rs| && rs[j].id == x.id;
      assert r[j].address == x.address;
    }
  }

  /**
   * Saving an edit keeps ids unique and below the counter and well-formed
   * addresses unique, and the saved address is then in the table.
   */
  lemma {:induction false} RowUpdateKeepsInvariants(rs: seq<Row>, edited: Row, n: nat)
    requires IdsUnique(rs) && IdsBelow(rs, n) && UniqueValidAddresses(rs)
    requires RowUpdate(rs, edited).Some?
    ensures var r := RowUpdate(rs, edited).value;
      IdsUnique(r) && IdsBelow(r, n) && UniqueValidAddresses(r)
      && (HasId(rs, edited.id) ==> HasAddress(r, edited.address))
  {
    var k := IndexOfDuplicate(rs, edited);
    if k >= 0 {
      MergeIntoDuplicateKeepsInvariants(rs, edited, k, n);
    } else {
      ReplaceKeepsInvariants(rs, edited.(isNew := false), n);
    }
  }

  /**
   * `handleCancelClick`: `None` when no row has the id (the handler throws on
   * `editedRow!.isNew`); an unsaved new row is removed; any other row stays.
   */
  function CancelEdit(rs: seq<Row>, id: nat): Option<seq<Row>> {
    var k := FirstIndex(rs, (r: Row) => r.id == id);
    if k == -1 then None
    else if rs[k].isNew then Some(WithoutId(rs, id))
    else Some(rs)
  }

  /** Cancel removes the row exactly when it is new, and fails exactly when the id is unknown. */
  lemma {:induction false} CancelEditCases(rs: seq<Row>, id: nat)
    requires IdsUnique(rs)
    ensures CancelEdit(rs, id).None? <==> !HasId(rs, id)
    ensures forall j :: 0 <= j < |rs| && rs[j].id == id ==>
      CancelEdit(rs, id) == Some(if rs[j].isNew then RemoveAt(rs, j) else rs)
  {
    var p := (r: Row) => r.id == id;
    var k := FirstIndex(rs, p);
    if k == -1 {
      assert forall i :: 0 <= i < |rs| ==> !p(rs[i]);
    } else {
      assert rs[k].id == id;
      forall j | 0 <= j < |rs| && rs[j].id == id
        ensures CancelEdit(rs, id) == Some(if rs[j].isNew then RemoveAt(rs, j) else rs)
      {
        assert j == k;
        WithoutUniqueId(rs, j);
      }
    }
  }

  // ----- uploads -----

  /** One record returned by the file-upload service. `None` stands for a missing amount. */
  datatype UploadItem = UploadItem(address: string, amount: Option<real>)

  /** `item.amount || defaultAmount`: a missing or zero amount becomes the default. */
  function UploadAmount(a: Option<real>): (x: real)
    ensures x != 0.0
    ensures a.Some? && a.value != 0.0 ==> x == a.value
    ensures a.None? || a.value == 0.0 ==> x == DefaultAmount
  {
    if a.Some? && a.value != 0.0 then a.value else DefaultAmount
  }

  /**
   * The rows an upload contributes: the items with a well-formed address, in
   * order, numbered from the id counter `base`.
   */
  function UploadRows(items: seq<UploadItem>, base: nat): (r: seq<Row>)
    ensures |r| <= |items|
  {
    if items == [] then []
    else
      var f := UploadRows(items[..|items| - 1], base);
      var it := items[|items| - 1];
      if IsValidAddress(it.address) then f + [Row(base + |f|, it.address, UploadAmount(it.amount), false)]
      else f
  }

  /** The upload rows are saved rows numbered from `base`, each with a well-formed address and a non-zero amount. */
  lemma {:induction false} UploadRowsShape(items: seq<UploadItem>, base: nat)
    ensures var r := UploadRows(items, base);
      && NumberedFrom(r, base)
      && forall k :: 0 <= k < |r| ==> IsValidAddress(r[k].address) && r[k].amount != 0.0
  {
    if items != [] {
      var front := items[..|items| - 1];
      UploadRowsShape(front, base);
      var f := UploadRows(front, base);
      var it := items[|items| - 1];
      if IsValidAddress(it.address) {
        var row := Row(base + |f|, it.address, UploadAmount(it.amount), false);
        var r := f + [row];
        assert UploadRows(items, base) == r;
        forall k | 0 <= k < |r|
          ensures r[k].id == base + k && !r[k].isNew && IsValidAddress(r[k].address) && r[k].amount != 0.0
        {
          if k < |f| {
            assert r[k] == f[k];
          }
        }
      } else {
        assert UploadRows(items, base) == f;
      }
    }
  }

  /** What the upload brings to address `a`: its items' amounts, if `a` is well formed. */
  function UploadTotal(items: seq<UploadItem>, a: string): real {
    if items == [] then 0.0
    else
      var it := items[|items| - 1];
      UploadTotal(items[..|items| - 1], a)
        + (if it.address == a && IsValidAddress(a) then UploadAmount(it.amount) else 0.0)
  }

  /** The upload rows carry, per address, exactly the amounts of the kept items. */
  lemma {:induction false} UploadRowsTotal(items: seq<UploadItem>, base: nat, a: string)
    ensures Total(UploadRows(items, base), a) == UploadTotal(items, a)
  {
    if items != [] {
      var front := items[..|items| - 1];
      UploadRowsTotal(front, base, a);
      var f := UploadRows(front, base);
      var it := items[|items| - 1];
      if IsValidAddress(it.address) {
        TotalAppend(f, Row(base + |f|, it.address, UploadAmount(it.amount), false), a);
      }
    }
  }

  /** Some item of the upload has address `a`. */
  predicate ItemsHave(items: seq<UploadItem>, a: string) {
    exists i :: 0 <= i < |items| && items[i].address == a
  }

  lemma {:induction false} ItemsHaveSnoc(items: seq<UploadItem>, a: string)
    requires items != []
    ensures ItemsHave(items, a) <==> ItemsHave(items[..|items| - 1], a) || items[|items| - 1].address == a
  {
    var front := items[..|items| - 1];
    if ItemsHave(items, a) {
      var i :| 0 <= i < |items| && items[i].address == a;
      if i < |front| { assert front[i].address == a; }
    }
    if ItemsHave(front, a) {
      var i :| 0 <= i < |front| && front[i].address == a;
      assert items[i].address == a;
    }
  }

  /** An address is among the upload rows exactly when it is well formed and some item has it. */
  lemma {:induction false} UploadRowsAddresses(items: seq<UploadItem>, base: nat, a: string)
    ensures HasAddress(UploadRows(items, base), a) <==> IsValidAddress(a) && ItemsHave(items, a)
  {
    if items != [] {
      var front := items[..|items| - 1];
      var it := items[|items| - 1];
      UploadRowsAddresses(front, base, a);
      ItemsHaveSnoc(items, a);
      var f := UploadRows(front, base);
      if IsValidAddress(it.address) {
        var row := Row(base + |f|, it.address, UploadAmount(it.amount), false);
        HasAddressAppend(f, [row], a);
        assert HasAddress([row], a) <==> it.address == a by {
          if it.address == a {
            assert [row][0].address == a;
          }
        }
      }
    }
  }

  /** Filtering out an id keeps every invariant of the table. */
  lemma {:induction false} WithoutIdKeepsInvariants(rs: seq<Row>, id: nat, n: nat)
    requires IdsUnique(rs) && IdsBelow(rs, n) && UniqueValidAddresses(rs)
    ensures var r := WithoutId(rs, id);
      IdsUnique(r) && IdsBelow(r, n) && UniqueValidAddresses(r) && !HasId(r, id)
  {
    var r := WithoutId(rs, id);
    WithoutIdMembers(rs, id);
    if HasId(rs, id) {
      var k :| 0 <= k < |rs| && rs[k].id == id;
      WithoutUniqueId(rs, k);
      RemoveAtKeepsInvariants(rs, k, n);
    } else {
      WithoutAbsentId(rs, id);
    }
  }

  // ----- the handlers' loops -----

  /** `rows.find((row) => row.walletAddress === a)`, scanning from the front. */
  method FindByAddress(rs: seq<Row>, a: string) returns (k: int)
    ensures k == IndexOfAddress(rs, a)
  {
    IndexOfAddressFirst(rs, a);
    var i := 0;
    while i < |rs|
      invariant 0 <= i <= |rs|
      invariant forall j :: 0 <= j < i ==> rs[j].address != a
    {
      if rs[i].address == a {
        return i;
      }
      i := i + 1;
    }
    return -1;
  }

  /**
   * The merge loop of pastes and uploads: each new row is added onto the first
   * row with its address (`existingRow.amount += newRow.amount`) or pushed.
   */
  method MergeInto(acc: seq<Row>, news: seq<Row>) returns (merged: seq<Row>)
    ensures merged == MergeRows(acc, news)
  {
    merged := acc;
    var i := 0;
    while i < |news|
      invariant 0 <= i <= |news|
      invariant merged == MergeRows(acc, news[..i])
    {
      assert news[..i + 1][..i] == news[..i];
      var r := news[i];
      var k := FindByAddress(merged, r.address);
      if k >= 0 {
        merged := merged[k := merged[k].(amount := merged[k].amount + r.amount)];
      } else {
        merged := merged + [r];
      }
      i := i + 1;
    }
    assert news[..i] == news;
  }
}
