/** tableDigest of cmd/server/migration.go: the hash of a table is the hash of one text, and that
    text determines the multiset of its rows and nothing more. */
module TableDigest {

  type Row = seq<string>

  // ---- the order of ORDER BY ----

  predicate TextLe(a: string, b: string)
    decreases |a|
  {
    a == [] || (b != [] && (a[0] < b[0] || (a[0] == b[0] && TextLe(a[1..], b[1..]))))
  }

  predicate RowLe(a: Row, b: Row)
    decreases |a|
  {
    a == [] || (b != [] && ((a[0] != b[0] && TextLe(a[0], b[0])) || (a[0] == b[0] && RowLe(a[1..], b[1..]))))
  }

  lemma {:induction false} TextOrder(a: string, b: string)
    ensures TextLe(a, b) || TextLe(b, a)
    ensures TextLe(a, b) && TextLe(b, a) ==> a == b
    decreases |a|
  {
    if a != [] && b != [] && a[0] == b[0] {
      TextOrder(a[1..], b[1..]);
      assert a == [a[0]] + a[1..] && b == [b[0]] + b[1..];
    }
  }

  lemma {:induction false} TextTrans(a: string, b: string, c: string)
    requires TextLe(a, b) && TextLe(b, c)
    ensures TextLe(a, c)
    decreases |a|
  {
    if a != [] && a[0] == b[0] == c[0] {
      TextTrans(a[1..], b[1..], c[1..]);
    }
  }

  lemma {:induction false} RowOrder(a: Row, b: Row)
    ensures RowLe(a, b) || RowLe(b, a)
    ensures RowLe(a, b) && RowLe(b, a) ==> a == b
    decreases |a|
  {
    if a != [] && b != [] {
      TextOrder(a[0], b[0]);
      RowOrder(a[1..], b[1..]);
      assert a == [a[0]] + a[1..] && b == [b[0]] + b[1..];
    }
  }

  lemma {:induction false} RowTrans(a: Row, b: Row, c: Row)
    requires RowLe(a, b) && RowLe(b, c)
    ensures RowLe(a, c)
    decreases |a|
  {
    if a != [] {
      if a[0] == b[0] == c[0] {
        RowTrans(a[1..], b[1..], c[1..]);
      } else {
        if a[0] != b[0] && b[0] != c[0] {
          TextTrans(a[0], b[0], c[0]);
          TextOrder(a[0], b[0]);
        }
      }
    }
  }

  ghost predicate Ordered(rows: seq<Row>) {
    forall i, j :: 0 <= i < j < |rows| ==> RowLe(rows[i], rows[j])
  }

  function Insert(row: Row, rows: seq<Row>): seq<Row> {
    if rows == [] || RowLe(row, rows[0]) then [row] + rows else [rows[0]] + Insert(row, rows[1..])
  }

  function OrderBy(rows: seq<Row>): seq<Row> {
    if rows == [] then [] else Insert(rows[0], OrderBy(rows[1..]))
  }

  lemma {:induction false} InsertOrdered(row: Row, rows: seq<Row>)
    requires Ordered(rows)
    ensures Ordered(Insert(row, rows)) && multiset(Insert(row, rows)) == multiset(rows) + multiset{row}
    decreases |rows|
  {
    if rows == [] {
    } else if RowLe(row, rows[0]) {
      forall j | 0 <= j < |rows| ensures RowLe(row, rows[j]) {
        if j > 0 { RowTrans(row, rows[0], rows[j]); }
      }
    } else {
      var rest := Insert(row, rows[1..]);
      InsertOrdered(row, rows[1..]);
      assert rows == [rows[0]] + rows[1..];
      RowOrder(row, rows[0]);
      forall j | 0 <= j < |rest| ensures RowLe(rows[0], rest[j]) {
        assert rest[j] in multiset(rest);
        assert rest[j] == row || rest[j] in rows[1..];
      }
    }
  }

  lemma {:induction false} OrderByOrders(rows: seq<Row>)
    ensures Ordered(OrderBy(rows)) && multiset(OrderBy(rows)) == multiset(rows)
    decreases |rows|
  {
    if rows != [] {
      OrderByOrders(rows[1..]);
      InsertOrdered(rows[0], OrderBy(rows[1..]));
      assert rows == [rows[0]] + rows[1..];
    }
  }

  lemma HeadsAgree(a: seq<Row>, b: seq<Row>)
    requires Ordered(a) && Ordered(b) && multiset(a) == multiset(b) && a != [] && b != []
    ensures a[0] == b[0]
  {
    assert a[0] in multiset(b) && b[0] in multiset(a);
    RowOrder(a[0], a[0]);
    RowOrder(a[0], b[0]);
  }

  /** An ordered list is determined by what it contains. */
  lemma {:induction false} OrderedIsUnique(a: seq<Row>, b: seq<Row>)
    requires Ordered(a) && Ordered(b) && multiset(a) == multiset(b)
    ensures a == b
    decreases |a|
  {
    hide RowLe;
    assert |multiset(a)| == |a| && |multiset(b)| == |b|;
    if a != [] {
      HeadsAgree(a, b);
      assert a == [a[0]] + a[1..] && b == [b[0]] + b[1..];
      assert multiset(a[1..]) == multiset(a) - multiset{a[0]} == multiset(b[1..]);
      OrderedIsUnique(a[1..], b[1..]);
    }
  }

  // ---- the text that is hashed ----

  function Digit(d: nat): char
    requires d < 10
  {
    "0123456789"[d]
  }

  /** strconv: the decimal form of a length. */
  function Decimal(n: nat): (s: string)
    ensures |s| > 0 && forall i :: 0 <= i < |s| ==> '0' <= s[i] <= '9'
  {
    if n < 10 then [Digit(n)] else Decimal(n / 10) + [Digit(n % 10)]
  }

  lemma DigitInjective(c: nat, d: nat)
    requires c < 10 && d < 10 && Digit(c) == Digit(d)
    ensures c == d
  {
  }

  lemma {:induction false} DecimalInjective(m: nat, n: nat)
    requires Decimal(m) == Decimal(n)
    ensures m == n
    decreases m
  {
    var a, b := Decimal(m), Decimal(n);
    assert a[|a| - 1] == Digit(m % 10) && b[|b| - 1] == Digit(n % 10);
    DigitInjective(m % 10, n % 10);
    assert (|a| == 1 <==> m < 10) && (|b| == 1 <==> n < 10);
    if m >= 10 {
      assert a[..|a| - 1] == Decimal(m / 10) && b[..|b| - 1] == Decimal(n / 10);
      DecimalInjective(m / 10, n / 10);
    }
  }

  /** One value: its length, a colon, its text, a bar. */
  function Field(v: string): string {
    Decimal(|v|) + ":" + v + "|"
  }

  function RowText(row: Row): string {
    if row == [] then "" else Field(row[0]) + RowText(row[1..])
  }

  /** Every value of every row, a line break after each row. */
  function Text(rows: seq<Row>): string {
    if rows == [] then "" else RowText(rows[0]) + "\n" + Text(rows[1..])
  }

  /** The length can be read off the front: its digits end at the first colon. */
  lemma FieldLength(u: string, v: string, r: string, s: string)
    requires Field(u) + r == Field(v) + s
    ensures |u| == |v|
  {
    var a, b, t := Decimal(|u|), Decimal(|v|), Field(u) + r;
    assert t[..|a|] == a && t[|a|] == ':' && t[..|b|] == b && t[|b|] == ':';
    assert forall i :: 0 <= i < |a| ==> t[i] != ':';
    assert forall i :: 0 <= i < |b| ==> t[i] != ':';
    DecimalInjective(|u|, |v|);
  }

  lemma FieldInjective(u: string, v: string, r: string, s: string)
    requires Field(u) + r == Field(v) + s
    ensures u == v && r == s
  {
    FieldLength(u, v, r, s);
    var t, k := Field(u) + r, |Decimal(|u|)|;
    assert t[k + 1..k + 1 + |u|] == u && (Field(v) + s)[k + 1..k + 1 + |u|] == v;
    assert t[|Field(u)|..] == r && (Field(v) + s)[|Field(v)|..] == s;
  }

  lemma {:induction false} RowTextInjective(a: Row, b: Row, r: string, s: string)
    requires |a| == |b| && RowText(a) + r == RowText(b) + s
    ensures a == b && r == s
    decreases |a|
  {
    if a == [] {
      assert RowText(a) + r == r && RowText(b) + s == s;
    } else {
      var x, y := RowText(a[1..]) + r, RowText(b[1..]) + s;
      assert RowText(a) + r == Field(a[0]) + x && RowText(b) + s == Field(b[0]) + y;
      FieldInjective(a[0], b[0], x, y);
      RowTextInjective(a[1..], b[1..], r, s);
      assert a == [a[0]] + a[1..] && b == [b[0]] + b[1..];
    }
  }

  ghost predicate Width(rows: seq<Row>, n: nat) {
    forall i :: 0 <= i < |rows| ==> |rows[i]| == n
  }

  /** Two lists of rows of the same number of columns with the same text are the same list. */
  lemma {:induction false} TextInjective(a: seq<Row>, b: seq<Row>, n: nat)
    requires Width(a, n) && Width(b, n) && Text(a) == Text(b)
    ensures a == b
    decreases |a|
  {
    if a != [] && b != [] {
      var x, y := "\n" + Text(a[1..]), "\n" + Text(b[1..]);
      TextSplit(a);
      TextSplit(b);
      RowTextInjective(a[0], b[0], x, y);
      assert x[1..] == Text(a[1..]) && y[1..] == Text(b[1..]);
      TextInjective(a[1..], b[1..], n);
      assert a == [a[0]] + a[1..] && b == [b[0]] + b[1..];
    }
  }

  lemma TextSplit(a: seq<Row>)
    requires a != []
    ensures Text(a) == RowText(a[0]) + ("\n" + Text(a[1..]))
  {
  }

  ghost predicate CollisionFree(sha: string -> string) {
    forall a, b :: sha(a) == sha(b) ==> a == b
  }

  function Digest(sha: string -> string, rows: seq<Row>, columns: nat): string {
    if columns == 0 then "" else sha(Text(OrderBy(rows)))
  }

  /** Equal digests mean equal multisets of rows, and the other way round. Only without any column is there nothing
      to hash, and then the counts, which are compared as well, decide. */
  lemma DigestIsExact(sha: string -> string, a: seq<Row>, b: seq<Row>, columns: nat)
    requires CollisionFree(sha) && Width(a, columns) && Width(b, columns)
    requires columns > 0 || |a| == |b|
    ensures Digest(sha, a, columns) == Digest(sha, b, columns) <==> multiset(a) == multiset(b)
  {
    OrderByOrders(a);
    OrderByOrders(b);
    var x, y := OrderBy(a), OrderBy(b);
    if columns == 0 {
      AllEmpty(a, b);
    } else {
      OrderedWidth(a, columns);
      OrderedWidth(b, columns);
      if Text(x) == Text(y) { TextInjective(x, y, columns); }
      if multiset(a) == multiset(b) { OrderedIsUnique(x, y); }
    }
  }

  lemma OrderedWidth(rows: seq<Row>, n: nat)
    requires Width(rows, n)
    ensures Width(OrderBy(rows), n)
  {
    OrderByOrders(rows);
    forall i | 0 <= i < |OrderBy(rows)| ensures |OrderBy(rows)[i]| == n {
      assert OrderBy(rows)[i] in multiset(OrderBy(rows));
    }
  }

  /** Without columns there is nothing to hash, and equal counts are enough. */
  lemma AllEmpty(a: seq<Row>, b: seq<Row>)
    requires Width(a, 0) && Width(b, 0) && |a| == |b|
    ensures a == b
  {
  }

  // ---- the loops ----

  lemma RowTextFrom(row: Row, j: nat)
    requires j < |row|
    ensures RowText(row[j..]) == Field(row[j]) + RowText(row[j + 1..])
  {
  }

  lemma TextFrom(rows: seq<Row>, i: nat)
    requires i < |rows|
    ensures Text(rows[i..]) == RowText(rows[i]) + "\n" + Text(rows[i + 1..])
  {
  }

  method WriteRow(written: string, vals: Row) returns (next: string)
    ensures next == written + RowText(vals) + "\n"
  {
    hide RowText;
    next := written;
    assert vals[0..] == vals;
    var j := 0;
    while j < |vals|
      invariant 0 <= j <= |vals|
      invariant next + RowText(vals[j..]) == written + RowText(vals)
    {
      RowTextFrom(vals, j);
      assert next + (Field(vals[j]) + RowText(vals[j + 1..])) == (next + Field(vals[j])) + RowText(vals[j + 1..]);
      next := next + Field(vals[j]);
      j := j + 1;
    }
    RowTextNone();
    assert vals[|vals|..] == [];
    next := next + "\n";
  }

  lemma Regroup(a: string, b: string, c: string)
    ensures a + (b + "\n" + c) == (a + b + "\n") + c
  {
  }

  lemma TextNone()
    ensures Text([]) == ""
  {
  }

  lemma RowTextNone()
    ensures RowText([]) == ""
  {
  }

  /** tableDigest: the rows come back from the query in order; every value is written to the hash. */
  method HashTable(sha: string -> string, rows: seq<Row>, columns: nat) returns (hash: string)
    ensures hash == Digest(sha, rows, columns)
  {
    if columns == 0 { return ""; }
    hide OrderBy, Text, RowText;
    var list := OrderBy(rows);
    var written := "";
    assert list[0..] == list;
    var i := 0;
    while i < |list|
      invariant 0 <= i <= |list|
      invariant written + Text(list[i..]) == Text(list)
    {
      TextFrom(list, i);
      Regroup(written, RowText(list[i]), Text(list[i + 1..]));
      written := WriteRow(written, list[i]);
      i := i + 1;
    }
    TextNone();
    assert list[|list|..] == [] && written + "" == written;
    return sha(written);
  }
}
