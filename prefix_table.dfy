/** The India prefix -> telecom circle table and its longest-prefix lookup
    (`INDIA_PREFIX_CIRCLES` and `get_india_circle` in app.py). */
module PrefixTable {
  import opened Wrappers
  import opened Text

  /** One CSV row as `csv.DictReader` yields it, reduced to the two columns the
      loader reads. A column missing from the header reads as `Some("")`
      (`row.get(..., '')`); a short row leaves the cell as Python `None`,
      modelled as `None`, on which `.strip()` raises. */
  datatype Row = Row(prefix: Option<string>, circle: Option<string>)

  /** The dataset file: absent, failing while it is read (an I/O or decoding
      error), or read as a sequence of rows. */
  datatype Dataset = Absent | Unreadable | Rows(rows: seq<Row>)

  /** `.strip()` succeeds on both cells of the row. */
  predicate Readable(r: Row)
  {
    r.prefix.Some? && r.circle.Some?
  }

  predicate AllReadable(rows: seq<Row>)
  {
    forall i :: 0 <= i < |rows| ==> Readable(rows[i])
  }

  /** The row is inserted: both trimmed cells are non-empty. */
  predicate Kept(r: Row)
  {
    Readable(r) && Strip(r.prefix.value) != [] && Strip(r.circle.value) != []
  }

  function KeyOf(r: Row): string
    requires Readable(r)
  {
    Strip(r.prefix.value)
  }

  function CircleOf(r: Row): string
    requires Readable(r)
  {
    Strip(r.circle.value)
  }

  /** Every key and every circle of the table is non-empty. */
  predicate WellFormed(t: map<string, string>)
  {
    forall k :: k in t ==> k != [] && t[k] != []
  }

  /** The table the loading loop builds from readable rows, one row at a time. */
  function Fill(rows: seq<Row>): (t: map<string, string>)
    requires AllReadable(rows)
    ensures WellFormed(t)
  {
    if rows == [] then map[]
    else
      Insert(Fill(rows[..|rows| - 1]), rows[|rows| - 1])
  }

  /** One iteration of the loading loop on a readable row. */
  function Insert(t: map<string, string>, r: Row): (t': map<string, string>)
    requires Readable(r)
  {
    if Kept(r) then t[KeyOf(r) := CircleOf(r)] else t
  }

  lemma FillStep(rows: seq<Row>, i: nat)
    requires i < |rows| && AllReadable(rows[..i + 1])
    ensures AllReadable(rows[..i])
    ensures Fill(rows[..i + 1]) == Insert(Fill(rows[..i]), rows[i])
  {
    assert rows[..i + 1][..i] == rows[..i];
    assert forall j :: 0 <= j < i ==> rows[..i][j] == rows[..i + 1][j];
  }

  /** What the module-level loading block leaves in `INDIA_PREFIX_CIRCLES`. */
  function TableOf(d: Dataset): map<string, string>
  {
    match d
    case Absent => map[]
    case Unreadable => map[]
    case Rows(rows) => if AllReadable(rows) then Fill(rows) else map[]
  }

  /** The loading loop of app.py: rows are visited in order, a row is inserted
      when both trimmed cells are non-empty, and a cell that cannot be trimmed
      raises, which resets the table to empty. */
  method LoadPrefixTable(d: Dataset) returns (table: map<string, string>)
    ensures table == TableOf(d)
    ensures WellFormed(table)
  {
    table := map[];
    if !d.Rows? {
      return;
    }
    var rows := d.rows;
    var i := 0;
    while i < |rows|
      invariant 0 <= i <= |rows|
      invariant AllReadable(rows[..i])
      invariant table == Fill(rows[..i])
    {
      var r := rows[i];
      if !Readable(r) {
        return map[];
      }
      ghost var done := rows[..i + 1];
      assert AllReadable(done) by {
        forall j | 0 <= j <= i ensures Readable(done[j]) {
          if j < i { assert done[j] == rows[..i][j]; }
        }
      }
      FillStep(rows, i);
      var p := Strip(r.prefix.value);
      var c := Strip(r.circle.value);
      if p != [] && c != [] {
        table := table[p := c];
      }
      i := i + 1;
    }
    assert rows[..i] == rows;
  }

  /** Row `i` is the last inserted row whose trimmed prefix is `k`. */
  predicate LastKeptWith(rows: seq<Row>, k: string, i: int)
    requires AllReadable(rows)
  {
    && 0 <= i < |rows| && Kept(rows[i]) && KeyOf(rows[i]) == k
    && forall j :: i < j < |rows| && Kept(rows[j]) ==> KeyOf(rows[j]) != k
  }

  /** Some inserted row carries the prefix `k`. */
  predicate Carries(rows: seq<Row>, k: string)
    requires AllReadable(rows)
  {
    exists i :: 0 <= i < |rows| && Kept(rows[i]) && KeyOf(rows[i]) == k
  }

  lemma CarriesStep(rows: seq<Row>, k: string)
    requires rows != [] && AllReadable(rows)
    ensures AllReadable(rows[..|rows| - 1])
    ensures Carries(rows, k) <==>
      Carries(rows[..|rows| - 1], k) || (Kept(rows[|rows| - 1]) && KeyOf(rows[|rows| - 1]) == k)
  {
    var n := |rows| - 1;
    var init := rows[..n];
    assert forall i :: 0 <= i < n ==> init[i] == rows[i];
  }

  lemma InsertKeys(t: map<string, string>, r: Row, k: string)
    requires Readable(r)
    ensures k in Insert(t, r) <==> k in t || (Kept(r) && KeyOf(r) == k)
  {
  }

  /** A prefix is in the table exactly when some inserted row carries it. */
  lemma {:induction false} FillKeys(rows: seq<Row>, k: string)
    requires AllReadable(rows)
    ensures k in Fill(rows) <==> Carries(rows, k)
  {
    if rows != [] {
      var n := |rows| - 1;
      FillStep(rows, n);
      assert rows[..n + 1] == rows;
      FillKeys(rows[..n], k);
      CarriesStep(rows, k);
      InsertKeys(Fill(rows[..n]), rows[n], k);
    }
  }

  lemma InsertValue(t: map<string, string>, r: Row, k: string)
    requires Readable(r) && k in Insert(t, r)
    ensures Insert(t, r)[k] == if Kept(r) && KeyOf(r) == k then CircleOf(r) else t[k]
  {
  }

  /** The last row carrying `k` stays the last one when a row that does not
      carry `k` is appended. */
  lemma LastKeptWithStep(rows: seq<Row>, k: string, i: int)
    requires rows != [] && AllReadable(rows)
    requires !(Kept(rows[|rows| - 1]) && KeyOf(rows[|rows| - 1]) == k)
    requires AllReadable(rows[..|rows| - 1]) && LastKeptWith(rows[..|rows| - 1], k, i)
    ensures LastKeptWith(rows, k, i)
  {
    var n := |rows| - 1;
    assert rows[..n][i] == rows[i];
    forall j | i < j < |rows| && Kept(rows[j]) ensures KeyOf(rows[j]) != k {
      if j < n { assert rows[..n][j] == rows[j]; }
    }
  }

  /** A prefix maps to the circle of the LAST inserted row that carries it: a
      later row overwrites an earlier one. */
  lemma {:induction false} FillLastWins(rows: seq<Row>, k: string)
    requires AllReadable(rows) && k in Fill(rows)
    ensures exists i :: LastKeptWith(rows, k, i) && Fill(rows)[k] == CircleOf(rows[i])
  {
    var n := |rows| - 1;
    FillStep(rows, n);
    assert rows[..n + 1] == rows;
    var init := rows[..n];
    var r := rows[n];
    InsertValue(Fill(init), r, k);
    if Kept(r) && KeyOf(r) == k {
      assert LastKeptWith(rows, k, n);
    } else {
      InsertKeys(Fill(init), r, k);
      FillLastWins(init, k);
      var i :| LastKeptWith(init, k, i) && Fill(init)[k] == CircleOf(init[i]);
      LastKeptWithStep(rows, k, i);
      assert init[i] == rows[i];
    }
  }

  /** The first `len` characters of `s` exist and are a key of the table. */
  predicate Hit(table: map<string, string>, s: string, len: nat)
  {
    len <= |s| && s[..len] in table
  }

  /** The first length of `lengths` whose prefix of `s` is a key wins. */
  function FirstMatch(table: map<string, string>, s: string, lengths: seq<nat>): (r: Option<string>)
    ensures r.None? <==> forall i :: 0 <= i < |lengths| ==> !Hit(table, s, lengths[i])
    ensures r.Some? ==> exists i ::
      && 0 <= i < |lengths| && Hit(table, s, lengths[i]) && r.value == table[s[..lengths[i]]]
      && forall j :: 0 <= j < i ==> !Hit(table, s, lengths[j])
    decreases |lengths|
  {
    if lengths == [] then None
    else if Hit(table, s, lengths[0]) then Some(table[s[..lengths[0]]])
    else
      var r := FirstMatch(table, s, lengths[1..]);
      assert forall i :: 1 <= i < |lengths| ==> lengths[i] == lengths[1..][i - 1];
      r
  }

  /** `get_india_circle`: try the prefixes of length 6, 5, 4 and 3, in that order. */
  function GetIndiaCircle(table: map<string, string>, s: string): Option<string>
  {
    FirstMatch(table, s, [6, 5, 4, 3])
  }

  /** The lookup returns the circle of the LONGEST prefix of `s`, of length 3 to
      6, that is a key; it returns `None` exactly when no such prefix is a key. */
  lemma {:induction false} LongestPrefixWins(table: map<string, string>, s: string)
    ensures GetIndiaCircle(table, s).None? <==> forall k :: 3 <= k <= 6 ==> !Hit(table, s, k)
    ensures GetIndiaCircle(table, s).Some? ==> exists k ::
      && 3 <= k <= 6 && Hit(table, s, k) && GetIndiaCircle(table, s).value == table[s[..k]]
      && forall k' :: k < k' <= 6 ==> !Hit(table, s, k')
  {
    var l6: seq<nat> := [6, 5, 4, 3];
    assert l6[1..] == [5, 4, 3] && l6[1..][1..] == [4, 3] && l6[1..][1..][1..] == [3];
    if Hit(table, s, 6) {
      assert GetIndiaCircle(table, s) == Some(table[s[..6]]);
    } else if Hit(table, s, 5) {
      assert GetIndiaCircle(table, s) == Some(table[s[..5]]);
    } else if Hit(table, s, 4) {
      assert GetIndiaCircle(table, s) == Some(table[s[..4]]);
    } else if Hit(table, s, 3) {
      assert GetIndiaCircle(table, s) == Some(table[s[..3]]);
    } else {
      assert GetIndiaCircle(table, s) == None;
    }
  }

  /** A string shorter than three characters never has a circle. */
  lemma ShortInputHasNoCircle(table: map<string, string>, s: string)
    requires |s| < 3
    ensures GetIndiaCircle(table, s) == None
  {
    LongestPrefixWins(table, s);
  }

  /** A 6-digit prefix that is absent falls through to a 5-digit one that is
      present: "9876543210" with only "98765" -> "Delhi" gives "Delhi". */
  lemma FallsThroughToShorterPrefix()
    ensures GetIndiaCircle(map["98765" := "Delhi"], "9876543210") == Some("Delhi")
  {
    var s := "9876543210";
    assert s[..6] == "987654";
    assert s[..5] == "98765";
  }
}
