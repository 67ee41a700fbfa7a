/**
 * The bulk-paste box: one recipient per line, an address optionally followed by
 * whitespace or commas and an amount. `validateInput` reports bad lines by
 * number; `handleAddRow` keeps the good ones and sums repeated addresses.
 */
module PasteInput {
  import opened Common
  import opened Text
  import opened RecipientRows

  /** A line as both handlers read it; `amount` is `None` where `parseFloat` gives `NaN`. */
  datatype ParsedLine = ParsedLine(address: string, amount: Option<real>)

  /** A kept line: its address and amount. */
  datatype Entry = Entry(address: string, amount: real)

  /** The lines of the paste: `input.split('\n')`. */
  function Lines(input: string): seq<string> {
    Split(input, '\n')
  }

  /**
   * `parts = line.trim().split(/[\s,]+/)`; the address is `parts[0]`, the amount
   * `parseFloat(parts[1].trim())` when `parts[1]` is a non-empty string, else 1.
   */
  function ParseLine(line: string, parse: string -> Option<real>): ParsedLine {
    var parts := SplitRuns(Trim(line));
    var amountText := if |parts| > 1 then parts[1] else "";
    ParsedLine(parts[0], if amountText != "" then parse(Trim(amountText)) else Some(DefaultAmount))
  }

  /** The test both handlers apply: a well-formed address and an amount that is a number. */
  predicate Usable(p: ParsedLine) {
    IsValidAddress(p.address) && p.amount.Some?
  }

  /** The test applied to a raw line. */
  predicate LineIsValid(line: string, parse: string -> Option<real>) {
    Usable(ParseLine(line, parse))
  }

  /** The address is the longest separator-free prefix of the trimmed line. */
  lemma {:induction false} AddressIsFirstField(line: string, parse: string -> Option<real>)
    ensures var t, a := Trim(line), ParseLine(line, parse).address;
      && |a| <= |t| && a == t[..|a|] && NoSeparator(a)
      && (|a| < |t| ==> IsSeparator(t[|a|]))
  {
    SplitRunsFields(Trim(line));
  }

  /**
   * A line has an amount field exactly when its address stops short of the end of
   * the trimmed line; that field is then the longest separator-free prefix of what
   * follows the separator run after the address, and it is the text parsed as the
   * amount, with the default amount when it is absent or empty.
   */
  lemma {:induction false} AmountIsSecondField(line: string, parse: string -> Option<real>)
    ensures var t, p := Trim(line), ParseLine(line, parse);
      var f := SplitRuns(t);
      && (|f| > 1 <==> |p.address| < |t|)
      && (|p.address| < |t| ==>
            var u := t[|p.address|..];
            var v := u[SeparatorRun(u)..];
            && SeparatorRun(u) > 0
            && |f[1]| <= |v| && f[1] == v[..|f[1]|] && NoSeparator(f[1])
            && (|f[1]| < |v| ==> IsSeparator(v[|f[1]|])))
      && p.amount == if |f| > 1 && f[1] != "" then parse(Trim(f[1])) else Some(DefaultAmount)
  {
    var t := Trim(line);
    var f := SplitRuns(t);
    SplitRunsFields(t);
    SplitRunsTail(t);
    if |f[0]| < |t| {
      var u := t[|f[0]|..];
      var v := u[SeparatorRun(u)..];
      assert u[0] == t[|f[0]|];
      SplitRunsFields(v);
    }
  }

  /**
   * A line is valid exactly when its first field has JavaScript length 44 and its
   * second field, when present and non-empty, parses as a number.
   */
  lemma {:induction false} LineValidity(line: string, parse: string -> Option<real>)
    ensures var f := SplitRuns(Trim(line));
      LineIsValid(line, parse) <==>
        Utf16Length(f[0]) == AddressLength && (|f| == 1 || f[1] == "" || parse(f[1]).Some?)
  {
    SplitRunsFields(Trim(line));
  }

  /** A blank (or all-whitespace) line always counts as invalid. */
  lemma {:induction false} BlankLineInvalid(line: string, parse: string -> Option<real>)
    requires Trim(line) == ""
    ensures !LineIsValid(line, parse)
  {
  }

  /** Every line of the paste, parsed: parsed line `i` is line `i`. */
  function ParseAll(lines: seq<string>, parse: string -> Option<real>): seq<ParsedLine> {
    seq(|lines|, i requires 0 <= i < |lines| => ParseLine(lines[i], parse))
  }

  /** The 1-based numbers of the parsed lines that fail the check, in order. */
  function Reported(ps: seq<ParsedLine>): seq<nat> {
    if ps == [] then []
    else Reported(ps[..|ps| - 1]) + (if Usable(ps[|ps| - 1]) then [] else [|ps|])
  }

  /** What `validateInput` reports for a list of lines. */
  function ReportedLines(lines: seq<string>, parse: string -> Option<real>): seq<nat> {
    Reported(ParseAll(lines, parse))
  }

  /** Exactly the failed lines are reported, each once, in increasing order. */
  lemma {:induction false} ReportedSpec(ps: seq<ParsedLine>)
    ensures forall n :: n in Reported(ps) <==> 1 <= n <= |ps| && !Usable(ps[n - 1])
    ensures forall i, j :: 0 <= i < j < |Reported(ps)| ==> Reported(ps)[i] < Reported(ps)[j]
    ensures forall i :: 0 <= i < |Reported(ps)| ==> 1 <= Reported(ps)[i] <= |ps|
  {
    if ps != [] {
      var m := |ps|;
      var front := ps[..m - 1];
      ReportedSpec(front);
      forall n ensures n in Reported(ps) <==> 1 <= n <= m && !Usable(ps[n - 1]) {
        if 1 <= n < m {
          assert ps[n - 1] == front[n - 1];
        }
      }
    }
  }

  /** Exactly the invalid lines are reported, each once, in increasing order. */
  lemma {:induction false} ReportedLinesSpec(lines: seq<string>, parse: string -> Option<real>)
    ensures var r := ReportedLines(lines, parse);
      && (forall n :: n in r <==> 1 <= n <= |lines| && !LineIsValid(lines[n - 1], parse))
      && (forall i, j :: 0 <= i < j < |r| ==> r[i] < r[j])
  {
    var ps := ParseAll(lines, parse);
    ReportedSpec(ps);
    forall i | 0 <= i < |lines|
      ensures LineIsValid(lines[i], parse) == Usable(ps[i])
    {
    }
  }

  /** One line further, the report grows by that line's number when it fails. */
  lemma {:induction false} ReportedStep(ps: seq<ParsedLine>, i: nat)
    requires i < |ps|
    ensures Reported(ps[..i + 1]) == Reported(ps[..i]) + (if Usable(ps[i]) then [] else [i + 1])
  {
    assert ps[..i + 1][..i] == ps[..i];
  }

  /** `validateInput`: the numbers of the lines that fail the check, in line order. */
  method ValidateInput(input: string, parse: string -> Option<real>) returns (errors: seq<nat>)
    ensures errors == ReportedLines(Lines(input), parse)
  {
    var lines := Lines(input);
    ghost var ps := ParseAll(lines, parse);
    errors := [];
    var i := 0;
    while i < |lines|
      invariant 0 <= i <= |lines|
      invariant errors == Reported(ps[..i])
    {
      ReportedStep(ps, i);
      if !LineIsValid(lines[i], parse) {
        errors := errors + [i + 1];
      }
      i := i + 1;
    }
    assert ps[..i] == ps;
  }

  /** The entries kept from the parsed lines: the usable ones, in order. */
  function Kept(ps: seq<ParsedLine>): (es: seq<Entry>)
    ensures forall i :: 0 <= i < |es| ==> IsValidAddress(es[i].address)
  {
    if ps == [] then []
    else
      var p := ps[|ps| - 1];
      Kept(ps[..|ps| - 1]) + (if Usable(p) then [Entry(p.address, p.amount.value)] else [])
  }

  /** The entries `handleAddRow` keeps: the valid lines, in order. */
  function PasteEntries(lines: seq<string>, parse: string -> Option<real>): seq<Entry> {
    Kept(ParseAll(lines, parse))
  }

  /** The entry a parsed line contributes when it is kept (only a line whose amount parsed is kept). */
  function EntryOf(p: ParsedLine): Entry {
    Entry(p.address, if p.amount.Some? then p.amount.value else 0.0)
  }

  /** The kept entries are exactly those of the usable lines. */
  lemma {:induction false} KeptMembers(ps: seq<ParsedLine>)
    ensures forall e :: e in Kept(ps) <==> exists i :: 0 <= i < |ps| && Usable(ps[i]) && e == EntryOf(ps[i])
  {
    if ps != [] {
      var front, p := ps[..|ps| - 1], ps[|ps| - 1];
      KeptMembers(front);
      assert Kept(ps) == Kept(front) + (if Usable(p) then [EntryOf(p)] else []);
      forall e | e in Kept(ps) ensures exists i :: 0 <= i < |ps| && Usable(ps[i]) && e == EntryOf(ps[i]) {
        if e in Kept(front) {
          var i :| 0 <= i < |front| && Usable(front[i]) && e == EntryOf(front[i]);
          assert ps[i] == front[i];
        } else {
          assert Usable(ps[|ps| - 1]) && e == EntryOf(ps[|ps| - 1]);
        }
      }
      forall e | exists i :: 0 <= i < |ps| && Usable(ps[i]) && e == EntryOf(ps[i]) ensures e in Kept(ps) {
        var i :| 0 <= i < |ps| && Usable(ps[i]) && e == EntryOf(ps[i]);
        if i < |front| {
          assert front[i] == ps[i];
        }
      }
    }
  }

  /**
   * `handleAddRow` keeps exactly the lines `validateInput` does not report:
   * line `n` is reported exactly when it is not usable, the kept entries are
   * exactly those of the unreported lines, and every line is counted once.
   */
  lemma {:induction false} KeptPlusReported(ps: seq<ParsedLine>)
    ensures |Kept(ps)| + |Reported(ps)| == |ps|
    ensures forall i :: 0 <= i < |ps| ==> (i + 1 in Reported(ps) <==> !Usable(ps[i]))
    ensures forall e :: e in Kept(ps) <==> exists i :: 0 <= i < |ps| && i + 1 !in Reported(ps) && e == EntryOf(ps[i])
  {
    KeptCount(ps);
    ReportedSpec(ps);
    KeptMembers(ps);
    forall i | 0 <= i < |ps| ensures i + 1 in Reported(ps) <==> !Usable(ps[i]) {
      assert ps[(i + 1) - 1] == ps[i];
    }
  }

  lemma {:induction false} KeptCount(ps: seq<ParsedLine>)
    ensures |Kept(ps)| + |Reported(ps)| == |ps|
  {
    if ps != [] {
      KeptCount(ps[..|ps| - 1]);
    }
  }

  /**
   * The rows one paste builds before it meets the table: repeated addresses
   * collapse into the row of their first occurrence, and row `k` gets id `base + k`.
   */
  function Collapse(es: seq<Entry>, base: nat): (c: seq<Row>)
    ensures |c| <= |es|
  {
    if es == [] then []
    else
      var acc := Collapse(es[..|es| - 1], base);
      var e := es[|es| - 1];
      MergeRow(acc, Row(base + |acc|, e.address, e.amount, false))
  }

  /** The collapsed rows are saved rows numbered consecutively from `base`. */
  lemma {:induction false} CollapseIds(es: seq<Entry>, base: nat)
    ensures NumberedFrom(Collapse(es, base), base)
  {
    if |es| > 0 {
      var acc := Collapse(es[..|es| - 1], base);
      var e := es[|es| - 1];
      var r := Row(base + |acc|, e.address, e.amount, false);
      CollapseIds(es[..|es| - 1], base);
      assert NumberedFrom(acc, base);
      MergeRowShape(acc, r);
      var c := MergeRow(acc, r);
      var t := acc + (if HasAddress(acc, r.address) then [] else [r]);
      assert Matches(c, t);
      forall k | 0 <= k < |c| ensures c[k].id == base + k && !c[k].isNew {
        assert SameButAmount(c[k], t[k]);
        if k < |acc| {
          assert t[k] == acc[k];
        } else {
          assert t[k] == r;
        }
      }
      assert Collapse(es, base) == c;
    }
  }

  /** No address appears twice among the collapsed rows. */
  lemma {:induction false} CollapseDistinct(es: seq<Entry>, base: nat)
    ensures DistinctAddresses(Collapse(es, base))
  {
    if es != [] {
      var acc := Collapse(es[..|es| - 1], base);
      var e := es[|es| - 1];
      CollapseDistinct(es[..|es| - 1], base);
      MergeRowDistinct(acc, Row(base + |acc|, e.address, e.amount, false));
    }
  }

  /** One more entry is merged in as a row numbered after the ones so far. */
  lemma {:induction false} CollapseSnoc(es: seq<Entry>, e: Entry, base: nat)
    ensures var acc := Collapse(es, base);
      Collapse(es + [e], base) == MergeRow(acc, Row(base + |acc|, e.address, e.amount, false))
  {
    var s := es + [e];
    assert s != [];
    assert s[..|s| - 1] == es;
    assert s[|s| - 1] == e;
  }

  /** The entries kept from a prefix one line longer. */
  lemma {:induction false} KeptPrefixStep(ps: seq<ParsedLine>, i: nat)
    requires i < |ps|
    ensures var p := ps[i];
      Kept(ps[..i + 1]) == Kept(ps[..i]) + if Usable(p) then [Entry(p.address, p.amount.value)] else []
  {
    assert ps[..i + 1][..i] == ps[..i];
  }

  /**
   * One pass of `handleAddRow`'s first loop on a valid line: its amount goes
   * onto the new row with its address, or it is pushed with id `nextId`.
   */
  method AddLine(newRows: seq<Row>, p: ParsedLine, nextId: nat) returns (rows: seq<Row>, next: nat)
    requires Usable(p)
    ensures rows == MergeRow(newRows, Row(nextId, p.address, p.amount.value, false))
    ensures next == nextId + |rows| - |newRows|
  {
    var k := FindByAddress(newRows, p.address);
    if k >= 0 {
      rows := newRows[k := newRows[k].(amount := newRows[k].amount + p.amount.value)];
      next := nextId;
    } else {
      rows := newRows + [Row(nextId, p.address, p.amount.value, false)];
      next := nextId + 1;
    }
  }

  /** `AddLine` on a valid line, and nothing on an invalid one: the rows so far, one line further on. */
  method CollapseStep(newRows: seq<Row>, p: ParsedLine, nextId: nat, ghost es: seq<Entry>, base: nat)
    returns (rows: seq<Row>, next: nat)
    requires newRows == Collapse(es, base) && nextId == base + |newRows|
    ensures rows == Collapse(es + if Usable(p) then [Entry(p.address, p.amount.value)] else [], base)
    ensures next == base + |rows|
  {
    if Usable(p) {
      CollapseSnoc(es, Entry(p.address, p.amount.value), base);
      rows, next := AddLine(newRows, p, nextId);
    } else {
      assert es + [] == es;
      rows, next := newRows, nextId;
    }
  }

  /**
   * The first loop of `handleAddRow`: each valid line is added onto the new row
   * with its address, or pushed as a new row with the next id from `base`.
   */
  method CollapseLines(lines: seq<string>, parse: string -> Option<real>, base: nat) returns (newRows: seq<Row>)
    ensures newRows == Collapse(PasteEntries(lines, parse), base)
  {
    ghost var ps := ParseAll(lines, parse);
    ghost var es: seq<Entry> := [];
    newRows := [];
    var nextId := base;
    var i := 0;
    while i < |lines|
      invariant 0 <= i <= |lines|
      invariant es == Kept(ps[..i])
      invariant newRows == Collapse(es, base) && nextId == base + |newRows|
    {
      var p := ParseLine(lines[i], parse);
      KeptPrefixStep(ps, i);
      newRows, nextId := CollapseStep(newRows, p, nextId, es, base);
      es := es + if Usable(p) then [Entry(p.address, p.amount.value)] else [];
      i := i + 1;
    }
    assert ps[..i] == ps;
  }

  /** The total of entries with address `a`. */
  function EntryTotal(es: seq<Entry>, a: string): real {
    if es == [] then 0.0
    else EntryTotal(es[..|es| - 1], a) + (if es[|es| - 1].address == a then es[|es| - 1].amount else 0.0)
  }

  /** Collapsing sums the amounts of each address. */
  lemma {:induction false} CollapseTotal(es: seq<Entry>, base: nat, a: string)
    ensures Total(Collapse(es, base), a) == EntryTotal(es, a)
  {
    if es != [] {
      var front, e := es[..|es| - 1], es[|es| - 1];
      var acc := Collapse(front, base);
      var r := Row(base + |acc|, e.address, e.amount, false);
      assert Collapse(es, base) == MergeRow(acc, r);
      assert EntryTotal(es, a) == EntryTotal(front, a) + (if e.address == a then e.amount else 0.0);
      CollapseTotal(front, base, a);
      MergeRowTotal(acc, r, a);
    }
  }

  /**
   * Merging a paste into a table keeps its ids unique and below the advanced
   * counter and its well-formed addresses unique, and adds the pasted amounts.
   */
  lemma {:induction false} MergePasted(rows: seq<Row>, es: seq<Entry>, base: nat)
    requires IdsUnique(rows) && IdsBelow(rows, base) && UniqueValidAddresses(rows)
    ensures var m := MergeRows(rows, Collapse(es, base));
      && IdsUnique(m) && IdsBelow(m, base + |Collapse(es, base)|) && UniqueValidAddresses(m)
      && forall a :: Total(m, a) == Total(rows, a) + EntryTotal(es, a)
  {
    var c := Collapse(es, base);
    CollapseIds(es, base);
    assert IdsUnique(c) && IdsFrom(c, base) && IdsBelow(c, base + |c|);
    MergeRowsIds(rows, c, base, base + |c|);
    MergeRowsDistinct(rows, c);
    forall a ensures Total(MergeRows(rows, c), a) == Total(rows, a) + EntryTotal(es, a) {
      MergeRowsTotal(rows, c, a);
      CollapseTotal(es, base, a);
    }
  }

  /**
   * `handleAddRow` on values: the lines collapsed into new rows numbered from
   * `base`, then merged into `rows` by address.
   */
  method AddPaste(rows: seq<Row>, lines: seq<string>, parse: string -> Option<real>, base: nat)
    returns (merged: seq<Row>, next: nat)
    requires IdsUnique(rows) && IdsBelow(rows, base) && UniqueValidAddresses(rows)
    ensures var c := Collapse(PasteEntries(lines, parse), base);
      merged == MergeRows(rows, c) && next == base + |c|
    ensures IdsUnique(merged) && IdsBelow(merged, next) && UniqueValidAddresses(merged)
    ensures forall a :: Total(merged, a) == Total(rows, a) + EntryTotal(PasteEntries(lines, parse), a)
  {
    var newRows := CollapseLines(lines, parse, base);
    next := base + |newRows|;
    MergePasted(rows, PasteEntries(lines, parse), base);
    merged := MergeInto(rows, newRows);
  }

  /** The addresses of a list of entries, in order. */
  function EntryAddresses(es: seq<Entry>): seq<string> {
    seq(|es|, i requires 0 <= i < |es| => es[i].address)
  }

  /** `xs` without repetitions, each kept at its first occurrence. */
  function FirstOccurrences(xs: seq<string>): seq<string> {
    if xs == [] then []
    else
      var front := FirstOccurrences(xs[..|xs| - 1]);
      if xs[|xs| - 1] in xs[..|xs| - 1] then front else front + [xs[|xs| - 1]]
  }

  /** Dropping repetitions keeps exactly the same members. */
  lemma {:induction false} FirstOccurrencesMembers(xs: seq<string>)
    ensures forall x :: x in FirstOccurrences(xs) <==> x in xs
  {
    if xs != [] {
      var init := xs[..|xs| - 1];
      FirstOccurrencesMembers(init);
      assert xs == init + [xs[|xs| - 1]];
    }
  }

  /** The addresses of some rows, in order. */
  function Addresses(rs: seq<Row>): seq<string> {
    seq(|rs|, i requires 0 <= i < |rs| => rs[i].address)
  }

  lemma {:induction false} AddressesMatch(xs: seq<Row>, ys: seq<Row>)
    requires Matches(xs, ys)
    ensures Addresses(xs) == Addresses(ys)
  {
    assert forall i :: 0 <= i < |xs| ==> SameButAmount(xs[i], ys[i]);
  }

  lemma {:induction false} HasAddressIn(rs: seq<Row>, a: string)
    ensures HasAddress(rs, a) <==> a in Addresses(rs)
  {
    if HasAddress(rs, a) {
      var i :| 0 <= i < |rs| && rs[i].address == a;
      assert Addresses(rs)[i] == a;
    }
  }

  /** A merge appends the row's address when it is new and leaves the addresses alone otherwise. */
  lemma {:induction false} MergeRowAddresses(acc: seq<Row>, r: Row)
    ensures Addresses(MergeRow(acc, r)) == Addresses(acc) + if r.address in Addresses(acc) then [] else [r.address]
  {
    var t := acc + (if HasAddress(acc, r.address) then [] else [r]);
    MergeRowShape(acc, r);
    AddressesMatch(MergeRow(acc, r), t);
    HasAddressIn(acc, r.address);
    if !HasAddress(acc, r.address) {
      assert Addresses(t) == Addresses(acc) + [r.address];
    } else {
      assert t == acc;
    }
  }

  lemma {:induction false} FirstOccurrencesSnoc(xs: seq<string>, x: string)
    ensures FirstOccurrences(xs + [x]) == FirstOccurrences(xs) + if x in xs then [] else [x]
  {
    var s := xs + [x];
    assert s[..|s| - 1] == xs;
  }

  /** The collapsed rows take the pasted addresses in first-occurrence order. */
  lemma {:induction false} CollapseAddresses(es: seq<Entry>, base: nat)
    ensures Addresses(Collapse(es, base)) == FirstOccurrences(EntryAddresses(es))
  {
    if es != [] {
      var front := es[..|es| - 1];
      var e := es[|es| - 1];
      var acc := Collapse(front, base);
      CollapseAddresses(front, base);
      var r := Row(base + |acc|, e.address, e.amount, false);
      assert Collapse(es, base) == MergeRow(acc, r);
      MergeRowAddresses(acc, r);
      var prior := EntryAddresses(front);
      assert EntryAddresses(es) == prior + [e.address];
      FirstOccurrencesSnoc(prior, e.address);
      FirstOccurrencesMembers(prior);
    }
  }
}
