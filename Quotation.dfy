/**
 * The quotation bookkeeping of the quotation program: a catalogue of products, the
 * rows of it currently shown under a search term, and the quotation lines built from
 * them, with the running total and its capitalised form.
 *
 * Money is kept in integer cents (the program keeps floats formatted to two places).
 */
module Quotation {
  import opened Wrappers
  import ChineseAmount

  /** A catalogue row: material code, name, specification, stock quantity and tax-inclusive unit price. */
  datatype Product = Product(code: string, name: string, spec: string, quantity: int, price: int)

  /** A quotation line: the product's code, name and specification, the quantity, unit price and subtotal. */
  datatype Line = Line(code: string, name: string, spec: string, quantity: int, price: int, subtotal: int)

  // ---------------------------------------------------------------------------
  // Totals
  // ---------------------------------------------------------------------------

  /** The sum of the subtotals of `lines`. */
  function Total(lines: seq<Line>): int
  {
    if lines == [] then 0 else Total(lines[..|lines| - 1]) + lines[|lines| - 1].subtotal
  }

  lemma {:induction false} TotalConcat(a: seq<Line>, b: seq<Line>)
    ensures Total(a + b) == Total(a) + Total(b)
  {
    if b != [] {
      assert (a + b)[..|a + b| - 1] == a + b[..|b| - 1];
      TotalConcat(a, b[..|b| - 1]);
    } else {
      assert a + b == a;
    }
  }

  /** Replacing one line changes the total by the difference of the two subtotals. */
  lemma TotalUpdate(lines: seq<Line>, i: nat, l: Line)
    requires i < |lines|
    ensures Total(lines[i := l]) == Total(lines) - lines[i].subtotal + l.subtotal
  {
    assert lines == lines[..i] + [lines[i]] + lines[i + 1..];
    assert lines[i := l] == lines[..i] + [l] + lines[i + 1..];
    TotalConcat(lines[..i] + [lines[i]], lines[i + 1..]);
    TotalConcat(lines[..i], [lines[i]]);
    TotalConcat(lines[..i] + [l], lines[i + 1..]);
    TotalConcat(lines[..i], [l]);
    assert [lines[i]][..0] == [] && [l][..0] == [];
  }

  /** Every line's subtotal is its quantity times its unit price. */
  predicate Consistent(lines: seq<Line>)
  {
    forall i :: 0 <= i < |lines| ==> lines[i].subtotal == lines[i].quantity * lines[i].price
  }

  /** No two lines carry the same material code. */
  predicate UniqueCodes(lines: seq<Line>)
  {
    forall i, j :: 0 <= i < j < |lines| ==> lines[i].code != lines[j].code
  }

  /** The material codes that occur in `lines`. */
  function Codes(lines: seq<Line>): set<string>
  {
    set i | 0 <= i < |lines| :: lines[i].code
  }

  /** The quantity quoted for `code`, summed over all the lines that carry it. */
  function QuantityOf(lines: seq<Line>, code: string): int
  {
    if lines == [] then 0
    else QuantityOf(lines[..|lines| - 1], code) + (if lines[|lines| - 1].code == code then lines[|lines| - 1].quantity else 0)
  }

  lemma {:induction false} QuantityOfConcat(a: seq<Line>, b: seq<Line>, code: string)
    ensures QuantityOf(a + b, code) == QuantityOf(a, code) + QuantityOf(b, code)
  {
    if b != [] {
      assert (a + b)[..|a + b| - 1] == a + b[..|b| - 1];
      QuantityOfConcat(a, b[..|b| - 1], code);
    } else {
      assert a + b == a;
    }
  }

  // ---------------------------------------------------------------------------
  // Adding a product
  // ---------------------------------------------------------------------------

  /** The index of the first line that carries `code`, if any. */
  function FindCode(lines: seq<Line>, code: string): (r: Option<nat>)
    ensures r.Some? ==> r.value < |lines| && lines[r.value].code == code
    ensures r.Some? ==> forall j :: 0 <= j < r.value ==> lines[j].code != code
    ensures r.None? <==> code !in Codes(lines)
  {
    if lines == [] then None
    else if lines[0].code == code then Some(0)
    else
      match FindCode(lines[1..], code)
      case None =>
        assert forall j :: 1 <= j < |lines| ==> lines[j] == lines[1..][j - 1];
        None
      case Some(i) => Some(i + 1)
  }

  /** The line a product makes when it is first added: one unit at the product's price. */
  function NewLine(p: Product): Line
  {
    Line(p.code, p.name, p.spec, 1, p.price, p.price)
  }

  /**
   * A line carrying the product's code, name and specification, one unit more than `l`,
   * and the product's current price.
   */
  function BumpedLine(l: Line, p: Product): Line
  {
    Line(p.code, p.name, p.spec, l.quantity + 1, p.price, (l.quantity + 1) * p.price)
  }

  /**
   * The lines after adding product `p`: the first line with its code gains one unit
   * (taking the product's current name, specification and price), and when there is no
   * such line a new line with one unit is appended.
   */
  function Added(lines: seq<Line>, p: Product): seq<Line>
  {
    match FindCode(lines, p.code)
    case Some(i) => lines[i := BumpedLine(lines[i], p)]
    case None => lines + [NewLine(p)]
  }

  /** Adding a product raises the quantity quoted for its code by one and leaves every other code alone. */
  lemma AddedQuantity(lines: seq<Line>, p: Product, code: string)
    ensures QuantityOf(Added(lines, p), code) == QuantityOf(lines, code) + (if code == p.code then 1 else 0)
  {
    match FindCode(lines, p.code)
    case Some(i) =>
      var l := BumpedLine(lines[i], p);
      assert lines == lines[..i] + [lines[i]] + lines[i + 1..];
      assert Added(lines, p) == lines[..i] + [l] + lines[i + 1..];
      QuantityOfConcat(lines[..i] + [lines[i]], lines[i + 1..], code);
      QuantityOfConcat(lines[..i], [lines[i]], code);
      QuantityOfConcat(lines[..i] + [l], lines[i + 1..], code);
      QuantityOfConcat(lines[..i], [l], code);
      assert [lines[i]][..0] == [] && [l][..0] == [];
    case None =>
      QuantityOfConcat(lines, [NewLine(p)], code);
      assert [NewLine(p)][..0] == [];
  }

  /** Adding a product adds its code to the quoted codes, and no other. */
  lemma AddedCodes(lines: seq<Line>, p: Product)
    ensures Codes(Added(lines, p)) == Codes(lines) + {p.code}
  {
    var r := Added(lines, p);
    match FindCode(lines, p.code)
    case Some(i) =>
      forall c | c in Codes(r) ensures c in Codes(lines) + {p.code} {
        var j :| 0 <= j < |r| && r[j].code == c;
        if j != i {
          assert lines[j].code == c;
        }
      }
      forall c | c in Codes(lines) + {p.code} ensures c in Codes(r) {
        if c == p.code {
          assert r[i].code == c;
        } else {
          var j :| 0 <= j < |lines| && lines[j].code == c;
          assert r[j].code == c;
        }
      }
    case None =>
      forall c | c in Codes(r) ensures c in Codes(lines) + {p.code} {
        var j :| 0 <= j < |r| && r[j].code == c;
        if j < |lines| {
          assert lines[j].code == c;
        }
      }
      forall c | c in Codes(lines) + {p.code} ensures c in Codes(r) {
        if c == p.code {
          assert r[|lines|].code == c;
        } else {
          var j :| 0 <= j < |lines| && lines[j].code == c;
          assert r[j].code == c;
        }
      }
  }

  /**
   * A product already quoted keeps the number of lines; a new one adds exactly one line.
   * Either way the codes stay unique and every subtotal stays quantity times price.
   */
  lemma AddedShape(lines: seq<Line>, p: Product)
    ensures |Added(lines, p)| == |lines| + (if p.code in Codes(lines) then 0 else 1)
    ensures UniqueCodes(lines) ==> UniqueCodes(Added(lines, p))
    ensures Consistent(lines) ==> Consistent(Added(lines, p))
  {
    var r := Added(lines, p);
    match FindCode(lines, p.code)
    case Some(i) =>
      if UniqueCodes(lines) {
        forall a, b | 0 <= a < b < |r| ensures r[a].code != r[b].code {
          if a == i {
            assert r[b] == lines[b];
          } else if b == i {
            assert r[a] == lines[a];
          }
        }
      }
    case None =>
      if UniqueCodes(lines) {
        forall a, b | 0 <= a < b < |r| ensures r[a].code != r[b].code {
          if b == |lines| {
            assert r[a].code in Codes(lines);
          }
        }
      }
  }

  /**
   * With consistent subtotals, adding a product whose line (if any) already carries its
   * price raises the total by exactly one unit price.
   */
  lemma AddedTotal(lines: seq<Line>, p: Product)
    requires Consistent(lines)
    requires forall i :: 0 <= i < |lines| && lines[i].code == p.code ==> lines[i].price == p.price
    ensures Total(Added(lines, p)) == Total(lines) + p.price
  {
    match FindCode(lines, p.code)
    case Some(i) =>
      TotalUpdate(lines, i, BumpedLine(lines[i], p));
      assert (lines[i].quantity + 1) * p.price == lines[i].quantity * p.price + p.price;
    case None =>
      TotalConcat(lines, [NewLine(p)]);
      assert [NewLine(p)][..0] == [];
  }

  // ---------------------------------------------------------------------------
  // Deleting lines
  // ---------------------------------------------------------------------------

  /** The lines whose index is not selected, in their order. */
  function Removed(lines: seq<Line>, selected: set<nat>): seq<Line>
  {
    if lines == [] then []
    else Removed(lines[..|lines| - 1], selected) + (if |lines| - 1 in selected then [] else [lines[|lines| - 1]])
  }

  /** The sum of the subtotals of the selected lines. */
  function SelectedTotal(lines: seq<Line>, selected: set<nat>): int
  {
    if lines == [] then 0
    else SelectedTotal(lines[..|lines| - 1], selected) + (if |lines| - 1 in selected then lines[|lines| - 1].subtotal else 0)
  }

  /** Deleting the selected lines lowers the total by exactly their subtotals. */
  lemma {:induction false} RemovedTotal(lines: seq<Line>, selected: set<nat>)
    ensures Total(Removed(lines, selected)) == Total(lines) - SelectedTotal(lines, selected)
  {
    if lines != [] {
      var n := |lines| - 1;
      RemovedTotal(lines[..n], selected);
      var kept := if n in selected then [] else [lines[n]];
      TotalConcat(Removed(lines[..n], selected), kept);
      assert kept != [] ==> kept[..0] == [];
    }
  }

  /** Every line that survives a deletion was a line before, at an index that was not selected. */
  lemma {:induction false} RemovedFrom(lines: seq<Line>, selected: set<nat>)
    ensures |Removed(lines, selected)| <= |lines|
    ensures forall l :: l in Removed(lines, selected) ==> exists i :: 0 <= i < |lines| && i !in selected && lines[i] == l
    ensures forall i :: 0 <= i < |lines| && i !in selected ==> lines[i] in Removed(lines, selected)
  {
    if lines != [] {
      var n := |lines| - 1;
      RemovedFrom(lines[..n], selected);
      forall l | l in Removed(lines, selected)
        ensures exists i :: 0 <= i < |lines| && i !in selected && lines[i] == l
      {
        if l in Removed(lines[..n], selected) {
          var i :| 0 <= i < n && i !in selected && lines[..n][i] == l;
          assert lines[i] == l;
        } else {
          assert n !in selected && lines[n] == l;
        }
      }
      forall i | 0 <= i < |lines| && i !in selected
        ensures lines[i] in Removed(lines, selected)
      {
        if i < n {
          assert lines[..n][i] == lines[i];
        }
      }
    }
  }

  /** Deleting one selected line removes exactly that line and keeps the others in order. */
  lemma {:induction false} RemovedOne(lines: seq<Line>, i: nat)
    requires i < |lines|
    ensures Removed(lines, {i}) == lines[..i] + lines[i + 1..]
  {
    var n := |lines| - 1;
    if i == n {
      NoneRemoved(lines[..n], {i});
      assert lines[..i] + lines[i + 1..] == lines[..n];
    } else {
      RemovedOne(lines[..n], i);
      assert lines[..n][..i] == lines[..i];
      assert lines[..n][i + 1..] + [lines[n]] == lines[i + 1..];
    }
  }

  /** A selection that holds no index of `lines` removes nothing. */
  lemma {:induction false} NoneRemoved(lines: seq<Line>, selected: set<nat>)
    requires forall i :: i in selected ==> i >= |lines|
    ensures Removed(lines, selected) == lines
  {
    if lines != [] {
      var n := |lines| - 1;
      NoneRemoved(lines[..n], selected);
      assert lines[..n] + [lines[n]] == lines;
    }
  }

  // ---------------------------------------------------------------------------
  // Searching the catalogue
  // ---------------------------------------------------------------------------

  /**
   * The ASCII characters that Python's `str.strip` removes: tab, line feed, vertical tab,
   * form feed, carriage return, the file, group, record and unit separators, and space.
   */
  predicate IsSpace(c: char)
  {
    9 <= c as int <= 13 || 28 <= c as int <= 32
  }

  /** `s` without its leading whitespace. */
  function TrimStart(s: string): (r: string)
    ensures |r| <= |s| && r == s[|s| - |r|..]
    ensures forall k :: 0 <= k < |s| - |r| ==> IsSpace(s[k])
    ensures r == [] || !IsSpace(r[0])
  {
    if s != [] && IsSpace(s[0]) then TrimStart(s[1..]) else s
  }

  /** `s` without its trailing whitespace. */
  function TrimEnd(s: string): (r: string)
    ensures |r| <= |s| && r == s[..|r|]
    ensures forall k :: |r| <= k < |s| ==> IsSpace(s[k])
    ensures r == [] || !IsSpace(r[|r| - 1])
  {
    if s != [] && IsSpace(s[|s| - 1]) then TrimEnd(s[..|s| - 1]) else s
  }

  /**
   * `s` without its leading and trailing whitespace: a contiguous part of `s` that neither
   * starts nor ends with whitespace, with only whitespace cut off on either side.
   */
  function Strip(s: string): (r: string)
    ensures exists i :: TrimmedAt(s, r, i)
    ensures r == [] || (!IsSpace(r[0]) && !IsSpace(r[|r| - 1]))
  {
    var t := TrimStart(s);
    var r := TrimEnd(t);
    TrimmedParts(s, t, r);
    r
  }

  /** A suffix `t` of `s` after leading whitespace, cut down to a prefix `r` before trailing whitespace, is `s` trimmed. */
  lemma TrimmedParts(s: string, t: string, r: string)
    requires |t| <= |s| && t == s[|s| - |t|..]
    requires forall k :: 0 <= k < |s| - |t| ==> IsSpace(s[k])
    requires t == [] || !IsSpace(t[0])
    requires |r| <= |t| && r == t[..|r|]
    requires forall k :: |r| <= k < |t| ==> IsSpace(t[k])
    requires r == [] || !IsSpace(r[|r| - 1])
    ensures TrimmedAt(s, r, |s| - |t|)
    ensures r == [] || (!IsSpace(r[0]) && !IsSpace(r[|r| - 1]))
  {
    var i := |s| - |t|;
    assert s[i..][..|r|] == s[i..i + |r|];
    assert OccursAt(s, r, i);
    forall k | i + |r| <= k < |s|
      ensures IsSpace(s[k])
    {
      assert s[k] == t[k - i];
    }
    assert r != [] ==> r[0] == t[0];
  }

  /** `r` occurs in `s` at index `i`, and everything before and after it is whitespace. */
  predicate TrimmedAt(s: string, r: string, i: int)
  {
    && OccursAt(s, r, i)
    && (forall k :: 0 <= k < i ==> IsSpace(s[k]))
    && (forall k :: i + |r| <= k < |s| ==> IsSpace(s[k]))
  }

  /** The lower-case form of an ASCII letter; any other character is kept. */
  function LowerChar(c: char): (r: char)
    ensures 'A' <= c <= 'Z' ==> r as int == c as int + 32
    ensures !('A' <= c <= 'Z') ==> r == c
    ensures !('A' <= r <= 'Z')
  {
    if 'A' <= c <= 'Z' then (c as int + 32) as char else c
  }

  /** `s` with every ASCII letter in lower case. */
  function Lower(s: string): (r: string)
    ensures |r| == |s|
    ensures forall k :: 0 <= k < |s| ==> r[k] == LowerChar(s[k])
  {
    if s == [] then [] else [LowerChar(s[0])] + Lower(s[1..])
  }

  /** The search term a query stands for: stripped, then lower-cased. */
  function SearchTerm(query: string): string
  {
    Lower(Strip(query))
  }

  /** `t` occurs in `s` starting at index `i`. */
  predicate OccursAt(s: string, t: string, i: int)
  {
    0 <= i && i + |t| <= |s| && s[i..i + |t|] == t
  }

  /** `t` occurs in `s` as a contiguous part. */
  predicate Contains(s: string, t: string)
  {
    exists i :: 0 <= i <= |s| && OccursAt(s, t, i)
  }

  /** A catalogue row is shown for `term` when the term is empty or its lower-cased specification holds the term. */
  predicate Shown(p: Product, term: string)
  {
    term == "" || Contains(Lower(p.spec), term)
  }

  /** The rows shown for `term`, in catalogue order. */
  function Filtered(rows: seq<Product>, term: string): seq<Product>
  {
    if rows == [] then []
    else Filtered(rows[..|rows| - 1], term) + (if Shown(rows[|rows| - 1], term) then [rows[|rows| - 1]] else [])
  }

  /** An empty search term shows the whole catalogue. */
  lemma {:induction false} FilterEmptyTermKeepsAll(rows: seq<Product>)
    ensures Filtered(rows, "") == rows
  {
    if rows != [] {
      FilterEmptyTermKeepsAll(rows[..|rows| - 1]);
      assert rows[..|rows| - 1] + [rows[|rows| - 1]] == rows;
    }
  }

  /** A row is shown exactly when it is in the catalogue and matches the term. */
  lemma {:induction false} FilterMembership(rows: seq<Product>, term: string, p: Product)
    ensures p in Filtered(rows, term) <==> p in rows && Shown(p, term)
  {
    if rows != [] {
      var n := |rows| - 1;
      FilterMembership(rows[..n], term, p);
      assert rows == rows[..n] + [rows[n]];
    }
  }

  /** Filtering keeps the catalogue order: the rows of two parts are shown part after part. */
  lemma {:induction false} FilterConcat(a: seq<Product>, b: seq<Product>, term: string)
    ensures Filtered(a + b, term) == Filtered(a, term) + Filtered(b, term)
  {
    if b != [] {
      var n := |b| - 1;
      assert (a + b)[..|a + b| - 1] == a + b[..n];
      FilterConcat(a, b[..n], term);
    } else {
      assert a + b == a;
    }
  }

  /** Searching again for the same term shows the same rows. */
  lemma {:induction false} FilterIdempotent(rows: seq<Product>, term: string)
    ensures Filtered(Filtered(rows, term), term) == Filtered(rows, term)
  {
    if rows != [] {
      var n := |rows| - 1;
      FilterIdempotent(rows[..n], term);
      var last := if Shown(rows[n], term) then [rows[n]] else [];
      FilterConcat(Filtered(rows[..n], term), last, term);
      if last != [] {
        assert last[..0] == [];
      }
    }
  }

  // ---------------------------------------------------------------------------
  // The quotation window
  // ---------------------------------------------------------------------------

  /**
   * The capitalised total shown after a total is computed. The field is cleared before
   * the converter runs, so it stays empty when the converter fails.
   */
  function WordsShown(total: int): string
  {
    match ChineseAmount.CentsWords(total)
    case Ok(w) => w
    case Err(_) => ""
  }

  /** Adds up the subtotals of `lines`, first to last. */
  method SumSubtotals(lines: seq<Line>) returns (sum: int)
    ensures sum == Total(lines)
  {
    sum := 0;
    var i := 0;
    while i < |lines|
      invariant 0 <= i <= |lines|
      invariant sum == Total(lines[..i])
    {
      assert lines[..i + 1][..i] == lines[..i];
      sum := sum + lines[i].subtotal;
      i := i + 1;
    }
    assert lines[..|lines|] == lines;
  }

  /**
   * Runs the converter on a total in cents: its words, or the empty text when the
   * converter fails on a loss of a yuan or more or on too many digits.
   */
  method CapitalisedTotal(total: int) returns (words: string)
    ensures words == WordsShown(total)
    ensures words == "" <==> total <= -100 || total >= 100 * ChineseAmount.Pow10(|ChineseAmount.Units|)
  {
    WordsShownEmpty(total);
    words := "";
    var split := ChineseAmount.SplitCents(total);
    if split.Ok? {
      var (yuan, jiao, fen) := split.value;
      var converted := ChineseAmount.ToChineseAmount(yuan, jiao, fen);
      if converted.Ok? {
        words := converted.value;
      }
    }
  }

  /**
   * The state the quotation window keeps: the full catalogue, the rows shown under the
   * current search, the quotation lines, the total and the capitalised total.
   */
  class QuotationApp {
    var catalogue: seq<Product>
    var shown: seq<Product>
    var lines: seq<Line>
    var total: int
    var totalInWords: string

    /** The total field always holds the sum of the line subtotals. */
    predicate Valid()
      reads this
    {
      total == Total(lines)
    }

    /** A window with an empty catalogue, nothing shown and an empty quotation. */
    constructor ()
      ensures Valid()
      ensures catalogue == [] && shown == [] && lines == [] && total == 0 && totalInWords == ""
    {
      catalogue := [];
      shown := [];
      lines := [];
      total := 0;
      totalInWords := "";
    }

    /**
     * Replaces the catalogue with the rows read from a spreadsheet and shows all of them,
     * row by row in their order. The quotation is not touched.
     */
    method LoadCatalogue(rows: seq<Product>)
      requires Valid()
      modifies this
      ensures Valid()
      ensures catalogue == rows && shown == rows
      ensures lines == old(lines) && total == old(total) && totalInWords == old(totalInWords)
    {
      shown := [];
      catalogue := [];
      var i := 0;
      while i < |rows|
        invariant 0 <= i <= |rows|
        invariant catalogue == rows[..i] && shown == rows[..i]
        invariant lines == old(lines) && total == old(total) && totalInWords == old(totalInWords)
      {
        shown := shown + [rows[i]];
        catalogue := catalogue + [rows[i]];
        i := i + 1;
      }
      assert rows[..|rows|] == rows;
    }

    /** Recomputes the total from the line subtotals, then its capitalised form. */
    method CalculateTotal()
      modifies this
      ensures Valid()
      ensures catalogue == old(catalogue) && shown == old(shown) && lines == old(lines)
      ensures total == Total(lines)
      ensures totalInWords == WordsShown(total)
    {
      var sum := SumSubtotals(lines);
      total := sum;
      totalInWords := "";
      var words := CapitalisedTotal(sum);
      totalInWords := words;
    }

    /**
     * Adds the selected shown row to the quotation: the first line with its code gains
     * one unit at the row's price, or a new line with one unit is appended; then the
     * total is recomputed. Without a selection nothing changes.
     */
    method AddToQuotation(selection: Option<nat>)
      requires Valid()
      requires selection.Some? ==> selection.value < |shown|
      modifies this
      ensures Valid()
      ensures catalogue == old(catalogue) && shown == old(shown)
      ensures selection.None? ==> lines == old(lines) && total == old(total) && totalInWords == old(totalInWords)
      ensures selection.Some? ==> lines == Added(old(lines), old(shown)[selection.value])
      ensures selection.Some? ==> total == Total(lines) && totalInWords == WordsShown(total)
    {
      if selection.None? {
        return;
      }
      var p := shown[selection.value];
      var current := lines;
      var existing: Option<nat> := None;
      var i := 0;
      while i < |current|
        invariant 0 <= i <= |current|
        invariant existing.None? ==> forall j :: 0 <= j < i ==> current[j].code != p.code
        invariant existing.Some? ==> existing == FindCode(current, p.code)
      {
        if current[i].code == p.code {
          existing := Some(i);
          FindFirst(current, p.code, i);
          break;
        }
        i := i + 1;
      }
      var updated: seq<Line>;
      if existing.Some? {
        var k := existing.value;
        var newQuantity := current[k].quantity + 1;
        updated := current[k := Line(p.code, p.name, p.spec, newQuantity, p.price, newQuantity * p.price)];
        assert updated == Added(current, p);
      } else {
        assert FindCode(current, p.code).None?;
        updated := current + [Line(p.code, p.name, p.spec, 1, p.price, p.price)];
        assert updated == Added(current, p);
      }
      lines := updated;
      CalculateTotal();
    }

    /** Deletes the selected lines, then recomputes the total. Without a selection nothing changes. */
    method DeleteItem(selection: set<nat>)
      requires Valid()
      requires forall i :: i in selection ==> i < |lines|
      modifies this
      ensures Valid()
      ensures catalogue == old(catalogue) && shown == old(shown)
      ensures selection == {} ==> lines == old(lines) && total == old(total) && totalInWords == old(totalInWords)
      ensures selection != {} ==> lines == Removed(old(lines), selection)
      ensures selection != {} ==> total == Total(lines) && totalInWords == WordsShown(total)
    {
      if selection == {} {
        return;
      }
      var kept: seq<Line> := [];
      var i := 0;
      while i < |lines|
        invariant 0 <= i <= |lines|
        invariant kept == Removed(lines[..i], selection)
      {
        assert lines[..i + 1][..i] == lines[..i];
        if i !in selection {
          kept := kept + [lines[i]];
        }
        i := i + 1;
      }
      assert lines[..|lines|] == lines;
      lines := kept;
      CalculateTotal();
    }

    /** Deletes every line, then recomputes the total. */
    method ClearQuotation()
      requires Valid()
      modifies this
      ensures Valid()
      ensures catalogue == old(catalogue) && shown == old(shown)
      ensures lines == [] && total == 0 && totalInWords == "零元整"
    {
      while lines != []
        modifies this
        invariant catalogue == old(catalogue) && shown == old(shown)
        decreases |lines|
      {
        lines := lines[1..];
      }
      CalculateTotal();
      ZeroInWords();
    }

    /**
     * Shows the catalogue rows whose lower-cased specification holds the stripped,
     * lower-cased query (all rows for an empty query), in catalogue order.
     */
    method FilterProducts(query: string)
      requires Valid()
      modifies this
      ensures Valid()
      ensures shown == Filtered(catalogue, SearchTerm(query))
      ensures catalogue == old(catalogue) && lines == old(lines) && total == old(total)
      ensures totalInWords == old(totalInWords)
    {
      var term := Lower(Strip(query));
      shown := [];
      var i := 0;
      while i < |catalogue|
        invariant 0 <= i <= |catalogue|
        invariant shown == Filtered(catalogue[..i], term)
        invariant catalogue == old(catalogue) && lines == old(lines) && total == old(total)
        invariant totalInWords == old(totalInWords)
      {
        assert catalogue[..i + 1][..i] == catalogue[..i];
        var spec := Lower(catalogue[i].spec);
        if term == "" || Contains(spec, term) {
          shown := shown + [catalogue[i]];
        }
        i := i + 1;
      }
      assert catalogue[..|catalogue|] == catalogue;
    }
  }

  /** A line at index `i` with the code, and none before it, is the one FindCode returns. */
  lemma {:induction false} FindFirst(lines: seq<Line>, code: string, i: nat)
    requires i < |lines| && lines[i].code == code
    requires forall j :: 0 <= j < i ==> lines[j].code != code
    ensures FindCode(lines, code) == Some(i)
  {
    if i > 0 {
      FindFirst(lines[1..], code, i - 1);
    }
  }

  /**
   * The capitalised total is left empty exactly when the total is a loss of at least one
   * yuan or has more integer digits than the unit table.
   */
  lemma WordsShownEmpty(total: int)
    ensures WordsShown(total) == "" <==> total <= -100 || total >= 100 * ChineseAmount.Pow10(|ChineseAmount.Units|)
  {
    var limit := ChineseAmount.Pow10(|ChineseAmount.Units|);
    match ChineseAmount.SplitCents(total)
    case Err(_) =>
    case Ok((yuan, jiao, fen)) =>
      ChineseAmount.OverrunIff(yuan, jiao, fen);
      if total >= 0 {
        assert total == 100 * yuan + (10 * jiao + fen) && 10 * jiao + fen < 100;
        assert yuan >= limit <==> total >= 100 * limit;
      }
  }

  /** A product added once at 12.50 and another added twice at 3.65 total 19.80, written 壹拾玖元捌角. */
  lemma QuotationExample()
    ensures var a, b := Product("A", "", "", 0, 1250), Product("B", "", "", 0, 365);
      var quoted := Added(Added(Added([], a), b), b);
      |quoted| == 2 && Total(quoted) == 1980 && WordsShown(Total(quoted)) == "壹拾玖元捌角"
  {
    var a, b := Product("A", "", "", 0, 1250), Product("B", "", "", 0, 365);
    ExampleLines(a, b);
    ChineseAmount.NineteenEightyWords();
  }

  /** Adding product `a` once and a second product `b` twice gives two lines worth one `a` and two `b`. */
  lemma ExampleLines(a: Product, b: Product)
    requires a.code != b.code
    ensures var quoted := Added(Added(Added([], a), b), b);
      |quoted| == 2 && Total(quoted) == a.price + 2 * b.price
  {
    var l1 := Added([], a);
    AddedTotal([], a);
    AddedShape([], a);
    AddedCodes([], a);
    var l2 := Added(l1, b);
    AddedTotal(l1, b);
    AddedShape(l1, b);
    AddedCodes(l1, b);
    assert l1 == [NewLine(a)];
    assert forall i :: 0 <= i < |l2| && l2[i].code == b.code ==> l2[i].price == b.price;
    AddedTotal(l2, b);
    AddedShape(l2, b);
  }

  /** An empty quotation totals 零元整. */
  lemma ZeroInWords()
    ensures WordsShown(0) == "零元整"
  {
    ChineseAmount.YuanWordsStart(0);
    assert ChineseAmount.FractionWords(0, 0) == "";
    assert "零" + "元" + "整" == "零元整";
  }
}
