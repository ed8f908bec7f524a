/** cloneTx of cmd/server/migration_target.go: one transaction swaps every table for the source's,
    checks the outcome table by table, and saves the new phase with the data. */
module CloneTables {
  import opened TableDigest

  /** A column's value is its quoted literal, as quote() gives it. */
  datatype Table = Table(cols: seq<string>, rows: seq<map<string, string>>)

  type Tables = map<string, Table>

  const EXCLUDED := "migration_state"

  predicate ValidTable(t: Table) {
    forall i, j :: 0 <= i < |t.rows| && 0 <= j < |t.cols| ==> t.cols[j] in t.rows[i]
  }

  ghost predicate Valid(ts: Tables) {
    forall name :: name in ts ==> ValidTable(ts[name])
  }

  /** Columns old databases still carry and no version uses. */
  function LegacyColumns(name: string): set<string> {
    if name == "sessions" then {"api_key"} else {}
  }

  function DropLegacy(cols: seq<string>, legacy: set<string>, main: seq<string>): (kept: seq<string>)
    ensures forall c :: c in kept <==> c in cols && !(c in legacy && c !in main)
  {
    if cols == [] then []
    else if cols[0] in legacy && cols[0] !in main then DropLegacy(cols[1..], legacy, main)
    else [cols[0]] + DropLegacy(cols[1..], legacy, main)
  }

  /** The columns of a source table that take part in the clone. */
  function Kept(name: string, src: Tables, main: Tables): (kept: seq<string>)
    requires name in src
    ensures forall c :: c in kept ==> c in src[name].cols
  {
    DropLegacy(src[name].cols, LegacyColumns(name), if name in main then main[name].cols else [])
  }

  predicate HasColumns(rows: seq<map<string, string>>, cols: seq<string>) {
    forall i, j :: 0 <= i < |rows| && 0 <= j < |cols| ==> cols[j] in rows[i]
  }

  function Project(rows: seq<map<string, string>>, cols: seq<string>): (p: seq<Row>)
    requires HasColumns(rows, cols)
    ensures |p| == |rows| && Width(p, |cols|)
  {
    seq(|rows|, i requires 0 <= i < |rows| => seq(|cols|, j requires 0 <= j < |cols| => rows[i][cols[j]]))
  }

  /** Every source table exists here, and every column of it but for the one that no version uses any more. */
  predicate Fits(src: Tables, main: Tables) {
    forall name :: name in src && name != "migration_state" ==>
      && name in main
      && forall c :: c in src[name].cols ==> c in main[name].cols || (name == "sessions" && c == "api_key")
  }

  lemma KeptColumns(name: string, src: Tables, main: Tables)
    requires Valid(src) && Valid(main) && name in src && name in main
    requires forall c :: c in Kept(name, src, main) ==> c in main[name].cols
    ensures HasColumns(src[name].rows, Kept(name, src, main))
    ensures HasColumns(main[name].rows, Kept(name, src, main))
  {
  }

  /** Each row cut down to the columns that both tables have. */
  function Cells(rows: seq<map<string, string>>, s: seq<string>, m: seq<string>): (cells: seq<map<string, string>>)
    ensures |cells| == |rows|
  {
    seq(|rows|, i requires 0 <= i < |rows| => map c | c in rows[i] && c in s && c in m :: rows[i][c])
  }

  /** One table of the clone: the same rows as the source's, in any order, or none at all. */
  ghost predicate SameRows(name: string, src: Tables, main: Tables)
    requires name in main
  {
    if name in src then
      multiset(Cells(main[name].rows, src[name].cols, main[name].cols)) == multiset(Cells(src[name].rows, src[name].cols, main[name].cols))
    else
      main[name].rows == []
  }

  ghost predicate IsClone(src: Tables, main: Tables) {
    forall name :: name in main && name != "migration_state" ==> SameRows(name, src, main)
  }

  // ---- two ways to cut rows down ----

  /** The same entries of a and c are equal to each other as of b and d. */
  ghost predicate Alike<A, B>(a: seq<A>, c: seq<B>, x: A, y: B) {
    |a| == |c| && forall i :: 0 <= i < |a| ==> (a[i] == x <==> c[i] == y)
  }

  lemma {:induction false} CountsAlike<A, B>(a: seq<A>, c: seq<B>, x: A, y: B)
    requires Alike(a, c, x, y)
    ensures multiset(a)[x] == multiset(c)[y]
  {
    if a != [] {
      var n := |a| - 1;
      assert a == a[..n] + [a[n]] && c == c[..n] + [c[n]];
      assert Alike(a[..n], c[..n], x, y);
      CountsAlike(a[..n], c[..n], x, y);
    }
  }

  /** Rows cut down in two ways that tell the same rows apart give equal multisets together. */
  lemma MultisetsAlike<A, B>(a: seq<A>, b: seq<A>, c: seq<B>, d: seq<B>)
    requires |a| == |c| && |b| == |d|
    requires forall i, j :: 0 <= i < |a + b| && 0 <= j < |a + b| ==> ((a + b)[i] == (a + b)[j] <==> (c + d)[i] == (c + d)[j])
    requires multiset(a) == multiset(b)
    ensures multiset(c) == multiset(d)
  {
    forall y ensures multiset(c)[y] == multiset(d)[y] {
      if y in c + d {
        var k :| 0 <= k < |c + d| && (c + d)[k] == y;
        var x := (a + b)[k];
        forall i | 0 <= i < |a| ensures a[i] == x <==> c[i] == y { assert (a + b)[i] == a[i] && (c + d)[i] == c[i]; }
        forall i | 0 <= i < |b| ensures b[i] == x <==> d[i] == y { assert (a + b)[|a| + i] == b[i] && (c + d)[|a| + i] == d[i]; }
        CountsAlike(a, c, x, y);
        CountsAlike(b, d, x, y);
      } else {
        assert y !in c && y !in d;
      }
    }
  }

  /** Of two rows, the projections are equal exactly when the cells are. */
  lemma CellsOfRows(r: map<string, string>, t: map<string, string>, kept: seq<string>, s: seq<string>, m: seq<string>)
    requires forall c :: c in kept <==> c in s && c in m
    requires forall c :: c in s && c in m ==> c in r && c in t
    ensures
      var p := seq(|kept|, j requires 0 <= j < |kept| => r[kept[j]]);
      var q := seq(|kept|, j requires 0 <= j < |kept| => t[kept[j]]);
      p == q <==> (map c | c in r && c in s && c in m :: r[c]) == (map c | c in t && c in s && c in m :: t[c])
  {
    var p := seq(|kept|, j requires 0 <= j < |kept| => r[kept[j]]);
    var q := seq(|kept|, j requires 0 <= j < |kept| => t[kept[j]]);
    var u := map c | c in r && c in s && c in m :: r[c];
    var v := map c | c in t && c in s && c in m :: t[c];
    assert u.Keys == v.Keys;
    if p == q {
      forall c | c in u ensures u[c] == v[c] {
        var j :| 0 <= j < |kept| && kept[j] == c;
        assert p[j] == q[j];
      }
    }
    if u == v {
      forall j | 0 <= j < |kept| ensures p[j] == q[j] {
        assert kept[j] in u && u[kept[j]] == v[kept[j]];
      }
    }
  }

  /** What is kept of a table that fits is what both tables have. */
  lemma KeptIsShared(name: string, src: Tables, main: Tables)
    requires name in src && name in main
    requires forall c :: c in Kept(name, src, main) ==> c in main[name].cols
    ensures forall c :: c in Kept(name, src, main) <==> c in src[name].cols && c in main[name].cols
  {
  }

  lemma ProjectionsTellAlike(a: seq<map<string, string>>, b: seq<map<string, string>>, kept: seq<string>, s: seq<string>, m: seq<string>)
    requires forall c :: c in kept <==> c in s && c in m
    requires HasColumns(a, kept) && HasColumns(b, kept)
    ensures multiset(Project(a, kept)) == multiset(Project(b, kept)) <==> multiset(Cells(a, s, m)) == multiset(Cells(b, s, m))
  {
    var p, q, u, v := Project(a, kept), Project(b, kept), Cells(a, s, m), Cells(b, s, m);
    forall i, j | 0 <= i < |a + b| && 0 <= j < |a + b|
      ensures (p + q)[i] == (p + q)[j] <==> (u + v)[i] == (u + v)[j]
    {
      var r, t := (a + b)[i], (a + b)[j];
      forall c | c in s && c in m ensures c in r && c in t {
        var k :| 0 <= k < |kept| && kept[k] == c;
      }
      CellsOfRows(r, t, kept, s, m);
    }
    if multiset(p) == multiset(q) { MultisetsAlike(p, q, u, v); }
    if multiset(u) == multiset(v) { MultisetsAlike(u, v, p, q); }
  }

  /** The check of one table: counts first, then digests. */
  predicate Conforms(sha: string -> string, name: string, src: Tables, main: Tables)
    requires Valid(src) && Valid(main) && name in main
    requires name in src ==> forall c :: c in Kept(name, src, main) ==> c in main[name].cols
  {
    if name !in src then |main[name].rows| == 0
    else
      && |main[name].rows| == |src[name].rows|
      && (KeptColumns(name, src, main);
          var kept := Kept(name, src, main);
          Digest(sha, Project(main[name].rows, kept), |kept|) == Digest(sha, Project(src[name].rows, kept), |kept|))
  }

  lemma ConformsIsExact(sha: string -> string, name: string, src: Tables, main: Tables)
    requires CollisionFree(sha) && Valid(src) && Valid(main) && name in main
    requires name in src ==> forall c :: c in Kept(name, src, main) ==> c in main[name].cols
    ensures Conforms(sha, name, src, main) <==> SameRows(name, src, main)
  {
    if name in src {
      KeptColumns(name, src, main);
      KeptIsShared(name, src, main);
      var kept := Kept(name, src, main);
      var a, b := Project(main[name].rows, kept), Project(src[name].rows, kept);
      assert |multiset(a)| == |a| && |multiset(b)| == |b|;
      ProjectionsTellAlike(main[name].rows, src[name].rows, kept, src[name].cols, main[name].cols);
      if |a| == |b| {
        DigestIsExact(sha, a, b, |kept|);
      }
    }
  }

  // ---- row for row ----

  /** A list of the numbers below n, each once. */
  predicate Pairs(perm: seq<nat>, n: nat) {
    && |perm| == n
    && (forall i :: 0 <= i < n ==> perm[i] < n)
    && forall i, j :: 0 <= i < j < n ==> perm[i] != perm[j]
  }

  function Without<T>(s: seq<T>, j: nat): seq<T>
    requires j < |s|
  {
    s[..j] + s[j + 1..]
  }

  lemma WithoutOne<T>(s: seq<T>, j: nat)
    requires j < |s|
    ensures multiset(s) == multiset(Without(s, j)) + multiset{s[j]}
  {
    assert s == s[..j] + [s[j]] + s[j + 1..];
  }

  /** The numbers moved up from j on, and then j. */
  function Extended(perm: seq<nat>, j: nat): (more: seq<nat>)
    ensures |more| == |perm| + 1 && more[|perm|] == j
  {
    seq<nat>(|perm|, i requires 0 <= i < |perm| => if perm[i] < j then perm[i] else perm[i] + 1) + [j]
  }

  lemma PairsExtended(perm: seq<nat>, j: nat, n: nat)
    requires Pairs(perm, n) && j <= n
    ensures Pairs(Extended(perm, j), n + 1)
  {
  }

  lemma ExtendedAgrees<T>(a: seq<T>, b: seq<T>, perm: seq<nat>, j: nat)
    requires |a| == |b| == |perm| + 1 && j < |b| && a[|perm|] == b[j] && Pairs(perm, |perm|)
    requires forall i :: 0 <= i < |perm| ==> a[i] == Without(b, j)[perm[i]]
    ensures forall i :: 0 <= i < |a| ==> Extended(perm, j)[i] < |b| && a[i] == b[Extended(perm, j)[i]]
  {
  }

  lemma {:induction false} PairUp<T>(a: seq<T>, b: seq<T>) returns (perm: seq<nat>)
    requires multiset(a) == multiset(b)
    ensures |a| == |b| && Pairs(perm, |a|) && forall i :: 0 <= i < |a| ==> a[i] == b[perm[i]]
    decreases |a|
  {
    hide Extended;
    assert |multiset(a)| == |a| && |multiset(b)| == |b|;
    if a == [] {
      perm := [];
    } else {
      var n := |a| - 1;
      assert a[n] in multiset(b);
      var j: nat :| j < |b| && b[j] == a[n];
      WithoutOne(b, j);
      WithoutOne(a, n);
      assert Without(a, n) == a[..n];
      assert multiset(a[..n]) == multiset(a) - multiset{a[n]} == multiset(Without(b, j));
      var rest := PairUp(a[..n], Without(b, j));
      assert forall i :: 0 <= i < n ==> a[i] == a[..n][i] == Without(b, j)[rest[i]];
      ExtendedAgrees(a, b, rest, j);
      PairsExtended(rest, j, n);
      perm := Extended(rest, j);
    }
  }

  lemma {:induction false} PairedUp<T>(a: seq<T>, b: seq<T>, perm: seq<nat>)
    requires |a| == |b| && Pairs(perm, |a|) && forall i :: 0 <= i < |a| ==> a[i] == b[perm[i]]
    ensures multiset(a) == multiset(b)
    decreases |a|
  {
    if a != [] {
      var n := |a| - 1;
      var j := perm[n];
      WithoutOne(b, j);
      WithoutOne(a, n);
      assert Without(a, n) == a[..n];
      forall i | 0 <= i < n ensures perm[i] != j && (perm[i] < j || perm[i] >= 1) {}
      var rest := seq<nat>(n, i requires 0 <= i < n => if perm[i] < j then perm[i] else perm[i] - 1);
      PairedUp(a[..n], Without(b, j), rest);
    }
  }

  /** What that means row by row: there are as many rows, and they can be paired up so that each pair agrees in every
      column that both tables have. */
  lemma RowForRow(name: string, src: Tables, main: Tables)
    requires Valid(src) && Valid(main) && name in src && name in main
    ensures SameRows(name, src, main) <==>
      && |main[name].rows| == |src[name].rows|
      && exists perm :: Pairs(perm, |src[name].rows|) && forall i, c ::
           0 <= i < |src[name].rows| && c in src[name].cols && c in main[name].cols ==>
             main[name].rows[perm[i]][c] == src[name].rows[i][c]
  {
    var s, m := src[name], main[name];
    var u, v := Cells(m.rows, s.cols, m.cols), Cells(s.rows, s.cols, m.cols);
    if multiset(u) == multiset(v) {
      var perm := PairUp(v, u);
      forall i, c | 0 <= i < |s.rows| && c in s.cols && c in m.cols ensures m.rows[perm[i]][c] == s.rows[i][c] {
        assert c in v[i] && v[i] == u[perm[i]];
      }
    }
    if |m.rows| == |s.rows| {
      forall perm | Pairs(perm, |s.rows|) && forall i, c :: 0 <= i < |s.rows| && c in s.cols && c in m.cols ==> m.rows[perm[i]][c] == s.rows[i][c]
        ensures multiset(u) == multiset(v)
      {
        forall i | 0 <= i < |v| ensures v[i] == u[perm[i]] {
          assert v[i].Keys == u[perm[i]].Keys;
        }
        PairedUp(v, u, perm);
      }
    }
  }

  /** What the DELETE and INSERT statements leave, whatever triggers and conversions do. */
  ghost predicate Rewrites(before: Tables, after: Tables) {
    && after.Keys == before.Keys
    && (forall name :: name in before ==> after[name].cols == before[name].cols)
    && (EXCLUDED in before ==> after[EXCLUDED] == before[EXCLUDED])
  }

  class Database {
    var tables: Tables
    var state: string      // the row of migration_state

    constructor (tables: Tables, state: string)
      ensures this.tables == tables && this.state == state
    {
      this.tables, this.state := tables, state;
    }

    /** cloneTx. `after` is what the statements of the transaction left in the tables; `linked` is
        the outcome of foreign_key_check; `next` is the state finalize saves, if it can; `commits`
        is whether COMMIT succeeds. */
    method CloneTx(sha: string -> string, src: Tables, after: Tables, linked: bool, next: string, saves: bool, commits: bool)
        returns (ok: bool)
      requires CollisionFree(sha) && Valid(src) && Valid(after) && Rewrites(tables, after)
      modifies this
      ensures ok <==> Fits(src, old(tables)) && IsClone(src, after) && linked && saves && commits
      ensures ok ==> tables == after && state == next
      ensures !ok ==> tables == old(tables) && state == old(state)
    {
      var fits := TablesFit(src);
      if !fits { return false; }
      var same := AllConform(sha, src, after);
      if !same || !linked || !saves || !commits { return false; }
      tables, state := after, next;
      return true;
    }

    /** The comparison of every table with the source's. */
    method AllConform(sha: string -> string, src: Tables, after: Tables) returns (ok: bool)
      requires CollisionFree(sha) && Valid(src) && Valid(after) && Rewrites(tables, after) && Fits(src, tables)
      ensures ok == IsClone(src, after)
    {
      hide Conforms, SameRows, Kept;
      var names := tables.Keys - {EXCLUDED};
      var todo := names;
      while todo != {}
        invariant todo <= names
        invariant forall name :: name in names - todo ==> SameRows(name, src, after)
        decreases |todo|
      {
        var name :| name in todo;
        FitsAfter(src, tables, after, name);
        ConformsIsExact(sha, name, src, after);
        var same := TableConforms(sha, name, src, after);
        if !same { return false; }
        todo := todo - {name};
      }
      return true;
    }

    method TablesFit(src: Tables) returns (ok: bool)
      ensures ok == Fits(src, tables)
    {
      var todo := src.Keys - {EXCLUDED};
      while todo != {}
        invariant todo <= src.Keys - {EXCLUDED}
        invariant forall name :: name in src.Keys - {EXCLUDED} - todo ==>
          name in tables && forall c :: c in Kept(name, src, tables) ==> c in tables[name].cols
        decreases |todo|
      {
        var name :| name in todo;
        if name !in tables { return false; }
        var kept := Kept(name, src, tables);
        if exists c :: c in kept && c !in tables[name].cols { return false; }
        todo := todo - {name};
      }
      return true;
    }

    /** The counts and the digests of one table. */
    method TableConforms(sha: string -> string, name: string, src: Tables, after: Tables) returns (ok: bool)
      requires Valid(src) && Valid(after) && name in after
      requires name in src ==> forall c :: c in Kept(name, src, after) ==> c in after[name].cols
      ensures ok == Conforms(sha, name, src, after)
    {
      var nm := |after[name].rows|;
      if name !in src { return nm == 0; }
      var ns := |src[name].rows|;
      if nm != ns { return false; }
      KeptColumns(name, src, after);
      var kept := Kept(name, src, after);
      var dm := HashTable(sha, Project(after[name].rows, kept), |kept|);
      var ds := HashTable(sha, Project(src[name].rows, kept), |kept|);
      return dm == ds;
    }
  }

  lemma FitsAfter(src: Tables, main: Tables, after: Tables, name: string)
    requires Fits(src, main) && Rewrites(main, after) && name in main && name != EXCLUDED
    ensures name in src ==> forall c :: c in Kept(name, src, after) ==> c in after[name].cols
  {
  }

  // ---- the statements themselves ----

  /** What plain DELETE and INSERT ... SELECT statements leave: the rows of the source in their
      order, with a default for each column that is not copied. */
  function Copied(main: Tables, src: Tables, default: string): (after: Tables)
    requires Valid(src) && Fits(src, main)
  {
    map name | name in main ::
      if name == EXCLUDED then main[name]
      else if name !in src then Table(main[name].cols, [])
      else Table(main[name].cols, CopyRows(src[name].rows, Kept(name, src, main), main[name].cols, default))
  }

  function CopyRows(rows: seq<map<string, string>>, kept: seq<string>, cols: seq<string>, default: string): (out: seq<map<string, string>>)
    ensures |out| == |rows|
  {
    seq(|rows|, i requires 0 <= i < |rows| =>
      map c | c in cols :: if c in kept && c in rows[i] then rows[i][c] else default)
  }

  lemma CopiedTable(main: Tables, src: Tables, default: string, name: string)
    requires Valid(src) && Valid(main) && Fits(src, main) && name in main && name != EXCLUDED && name in src
    ensures
      var rows := Copied(main, src, default)[name].rows;
      var kept := Kept(name, src, main);
      && HasColumns(rows, kept) && HasColumns(src[name].rows, kept)
      && Project(rows, kept) == Project(src[name].rows, kept)
  {
    KeptColumns(name, src, main);
    var kept := Kept(name, src, main);
    var rows := Copied(main, src, default)[name].rows;
    forall i, j | 0 <= i < |rows| && 0 <= j < |kept|
      ensures kept[j] in rows[i] && rows[i][kept[j]] == src[name].rows[i][kept[j]]
    {
      assert kept[j] in main[name].cols;
    }
    var p, q := Project(rows, kept), Project(src[name].rows, kept);
    forall i | 0 <= i < |p| ensures p[i] == q[i] {
      assert forall j :: 0 <= j < |kept| ==> p[i][j] == q[i][j];
    }
  }

  lemma CopiedRewrites(main: Tables, src: Tables, default: string)
    requires Valid(src) && Valid(main) && Fits(src, main)
    ensures Valid(Copied(main, src, default)) && Rewrites(main, Copied(main, src, default))
  {
  }

  /** Such a copy passes every check: the verification never refuses a faithful clone. */
  lemma FaithfulCopyPasses(main: Tables, src: Tables, default: string)
    requires Valid(src) && Valid(main) && Fits(src, main)
    ensures
      var after := Copied(main, src, default);
      Valid(after) && Rewrites(main, after) && IsClone(src, after)
  {
    hide Project, HasColumns;
    var after := Copied(main, src, default);
    CopiedRewrites(main, src, default);
    forall name | name in after && name != EXCLUDED ensures SameRows(name, src, after) {
      if name in src {
        CopiedTable(main, src, default, name);
        KeptIsShared(name, src, main);
        ProjectionsTellAlike(after[name].rows, src[name].rows, Kept(name, src, main), src[name].cols, main[name].cols);
      }
    }
  }
}
