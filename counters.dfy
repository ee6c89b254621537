/** Reading traffic counters from the listing `iptables -L <chain> -n -v -x`
    prints: a `Chain ...` header, a column header, then one line per rule
    whose first two columns are its packet and byte counts. */
module TrafficCounters {
  import opened Wrappers
  import opened Lines

  datatype Counters = Counters(pkts: nat, bytes: nat)

  const NoTraffic := Counters(0, 0)

  function Add(a: Counters, b: Counters): Counters {
    Counters(a.pkts + b.pkts, a.bytes + b.bytes)
  }

  /** The characters Python's `str.split()` splits on. */
  predicate IsSpace(c: char) {
    c == ' ' || c == '\t' || c == '\n' || c == '\r' || c == '\U{B}' || c == '\U{C}'
  }

  /** The length of the run of non-space characters that starts `s`. */
  function TokenLength(s: string): (n: nat)
    ensures n <= |s|
    ensures s != [] && !IsSpace(s[0]) ==> n >= 1
    ensures forall i :: 0 <= i < n ==> !IsSpace(s[i])
    ensures n < |s| ==> IsSpace(s[n])
  {
    if s == [] || IsSpace(s[0]) then 0 else 1 + TokenLength(s[1..])
  }

  /** Python's `str.split()`: the maximal runs of non-space characters. */
  function Fields(s: string): (fields: seq<string>)
    ensures forall f :: f in fields ==> f != [] && forall c :: c in f ==> !IsSpace(c)
    decreases |s|
  {
    if s == [] then []
    else if IsSpace(s[0]) then Fields(s[1..])
    else
      var n := TokenLength(s);
      [s[..n]] + Fields(s[n..])
  }

  /** Python's `str.isdigit()`. */
  predicate IsDigits(s: string) {
    s != [] && AllDigits(s)
  }

  predicate AllDigits(s: string) {
    forall i :: 0 <= i < |s| ==> '0' <= s[i] <= '9'
  }

  /** Python's `int(s)` on a string of decimal digits. */
  function DigitsValue(s: string): nat
    requires AllDigits(s)
  {
    if s == [] then 0
    else 10 * DigitsValue(s[..|s| - 1]) + (s[|s| - 1] as int - '0' as int)
  }

  /** The packet and byte counts of a data line; None for a line that is
      not one (empty, fewer than two columns, or non-numeric counts), which
      ends the listing's data. */
  function LineCounters(line: string): (r: Option<Counters>)
    ensures (forall i :: 0 <= i < |line| ==> IsSpace(line[i])) ==> r == None
  {
    BlankHasNoFields(line);
    var f := Fields(line);
    if |f| < 2 || !IsDigits(f[0]) || !IsDigits(f[1]) then None
    else Some(Counters(DigitsValue(f[0]), DigitsValue(f[1])))
  }

  /** The sum over the data lines that open `lines`, up to the first line
      that is not a data line. */
  function DataTotals(lines: seq<string>): Counters {
    if lines == [] then NoTraffic
    else match LineCounters(lines[0])
         case None => NoTraffic
         case Some(c) => Add(c, DataTotals(lines[1..]))
  }

  /** What one listing contributes: its lines after the two header lines. */
  function ListingTotals(listing: string): (r: Counters)
    ensures (forall i :: 0 <= i < |listing| ==> listing[i] != '\n') ==> r == NoTraffic
  {
    SplitLinesOneLine(listing);
    var lines := SplitLines(listing);
    if |lines| < 2 then NoTraffic else DataTotals(lines[2..])
  }

  /** Adds up the counters of one listing into a running total. */
  method SumListing(listing: string) returns (acc: Counters)
    ensures acc == ListingTotals(listing)
  {
    var lines := SplitLines(listing);
    acc := NoTraffic;
    if |lines| < 2 {
      return;
    }
    var data := lines[2..];
    var i := 0;
    while i < |data|
      invariant 0 <= i <= |data|
      invariant Add(acc, DataTotals(data[i..])) == DataTotals(data)
    {
      var c := LineCounters(data[i]);
      if c.None? {
        break;
      }
      assert data[i..][1..] == data[i + 1..];
      assert DataTotals(data[i..]) == Add(c.value, DataTotals(data[i + 1..]));
      acc := Add(acc, c.value);
      i := i + 1;
    }
  }

  // ---------------------------------------------------------------------
  // Properties.

  /** A reference definition: the sum over every line, all of them data lines. */
  function RowsTotal(rows: seq<string>): Counters
    requires forall r :: r in rows ==> LineCounters(r).Some?
  {
    if rows == [] then NoTraffic else Add(LineCounters(rows[0]).value, RowsTotal(rows[1..]))
  }

  /** A listing made of two header lines and data lines adds up the first
      two columns of every data line; the headers never count. */
  lemma ListingOfRows(header: string, columns: string, rows: seq<string>)
    requires '\n' !in header && '\n' !in columns
    requires forall r :: r in rows ==> '\n' !in r && LineCounters(r).Some?
    ensures ListingTotals(Text([header, columns] + rows)) == RowsTotal(rows)
  {
    var lines := [header, columns] + rows;
    SplitText(lines);
    assert (lines + [""])[2..] == rows + [""];
    DataTotalsOfRows(rows);
  }

  lemma {:induction false} DataTotalsOfRows(rows: seq<string>)
    requires forall r :: r in rows ==> LineCounters(r).Some?
    ensures DataTotals(rows + [""]) == RowsTotal(rows)
  {
    if rows == [] {
      assert Fields("") == [];
    } else {
      assert (rows + [""])[0] == rows[0];
      assert (rows + [""])[1..] == rows[1..] + [""];
      DataTotalsOfRows(rows[1..]);
    }
  }

  /** An empty listing contributes nothing. */
  lemma EmptyListing()
    ensures ListingTotals("") == NoTraffic
  {
  }

  /** A line of spaces only has no fields. */
  lemma {:induction false} BlankHasNoFields(s: string)
    ensures (forall i :: 0 <= i < |s| ==> IsSpace(s[i])) ==> Fields(s) == []
  {
    if s != [] && forall i :: 0 <= i < |s| ==> IsSpace(s[i]) {
      assert forall i :: 0 <= i < |s[1..]| ==> IsSpace(s[1..][i]);
      BlankHasNoFields(s[1..]);
    }
  }

  /** Leading spaces do not change the fields. */
  lemma {:induction false} FieldsSkipSpaces(spaces: string, rest: string)
    requires forall c :: c in spaces ==> IsSpace(c)
    ensures Fields(spaces + rest) == Fields(rest)
  {
    if spaces != [] {
      assert (spaces + rest)[0] == spaces[0];
      assert (spaces + rest)[1..] == spaces[1..] + rest;
      FieldsSkipSpaces(spaces[1..], rest);
    } else {
      assert spaces + rest == rest;
    }
  }

  lemma {:induction false} TokenLengthOf(token: string, rest: string)
    requires forall c :: c in token ==> !IsSpace(c)
    requires rest == [] || IsSpace(rest[0])
    ensures TokenLength(token + rest) == |token|
  {
    if token != [] {
      assert (token + rest)[0] == token[0];
      assert (token + rest)[1..] == token[1..] + rest;
      TokenLengthOf(token[1..], rest);
    } else {
      assert token + rest == rest;
    }
  }

  /** A run of non-space characters followed by a space (or the end) is one field. */
  lemma FieldsToken(token: string, rest: string)
    requires token != [] && forall c :: c in token ==> !IsSpace(c)
    requires rest == [] || IsSpace(rest[0])
    ensures Fields(token + rest) == [token] + Fields(rest)
  {
    TokenLengthOf(token, rest);
    var s := token + rest;
    assert s[0] == token[0];
    assert s[..|token|] == token;
    assert s[|token|..] == rest;
  }

  /** A data line: leading spaces, the packet count, spaces, the byte
      count, then the rest of the columns after a space. */
  lemma DataLineCounters(lead: string, pkts: string, gap: string, bytes: string, rest: string)
    requires forall c :: c in lead ==> IsSpace(c)
    requires IsDigits(pkts) && IsDigits(bytes)
    requires gap != [] && forall c :: c in gap ==> IsSpace(c)
    requires rest == [] || IsSpace(rest[0])
    ensures LineCounters(lead + pkts + gap + bytes + rest) == Some(Counters(DigitsValue(pkts), DigitsValue(bytes)))
  {
    assert forall c :: c in pkts ==> !IsSpace(c) by {
      forall c | c in pkts ensures !IsSpace(c) {
        var i :| 0 <= i < |pkts| && pkts[i] == c;
      }
    }
    assert forall c :: c in bytes ==> !IsSpace(c) by {
      forall c | c in bytes ensures !IsSpace(c) {
        var i :| 0 <= i < |bytes| && bytes[i] == c;
      }
    }
    var line := lead + pkts + gap + bytes + rest;
    assert line == lead + (pkts + (gap + (bytes + rest)));
    FieldsSkipSpaces(lead, pkts + (gap + (bytes + rest)));
    FieldsToken(pkts, gap + (bytes + rest));
    FieldsSkipSpaces(gap, bytes + rest);
    FieldsToken(bytes, rest);
  }
}
