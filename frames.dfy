/**
 * A column-major model of the pandas DataFrames the scoring code handles.
 * A frame is a sequence of named columns, each holding one cell per row.
 * Only the one fact about pandas dtype inference the scoring code relies on
 * is kept: whether a column is numeric.
 */
module Frames {
  import opened Wrappers

  /** The cells of one column; floats and ints are the numeric dtypes. */
  datatype ColumnData = Floats(reals: seq<real>) | Ints(ints: seq<int>) | Texts(texts: seq<string>)
  {
    /** What `select_dtypes(include=[np.number])` keeps. */
    predicate IsNumeric() {
      !Texts?
    }

    function Length(): nat {
      match this
      case Floats(v) => |v|
      case Ints(v) => |v|
      case Texts(v) => |v|
    }

    /** The column's cells as the real numbers the scaler receives. */
    function AsReals(): (r: seq<real>)
      requires IsNumeric()
      ensures |r| == Length()
      ensures Floats? ==> r == reals
      ensures Ints? ==> forall i :: 0 <= i < |r| ==> r[i] == ints[i] as real
    {
      match this
      case Floats(v) => v
      case Ints(v) => seq(|v|, i requires 0 <= i < |v| => v[i] as real)
    }
  }

  datatype Column = Column(name: string, data: ColumnData)

  /** A row-major matrix of reals: one inner sequence per row. */
  type Matrix = seq<seq<real>>

  function Names(cols: seq<Column>): seq<string> {
    seq(|cols|, j requires 0 <= j < |cols| => cols[j].name)
  }

  predicate HasColumn(cols: seq<Column>, name: string) {
    exists j :: 0 <= j < |cols| && cols[j].name == name
  }

  /** No two columns share a name, as `pd.read_csv` guarantees by renaming duplicate headers. */
  predicate UniqueNames(cols: seq<Column>) {
    forall i, j :: 0 <= i < j < |cols| ==> cols[i].name != cols[j].name
  }

  lemma UniquePrepend(c: Column, tail: seq<Column>)
    requires UniqueNames(tail) && forall d :: d in tail ==> d.name != c.name
    ensures UniqueNames([c] + tail)
  {
    var r := [c] + tail;
    forall i, j | 0 <= i < j < |r| ensures r[i].name != r[j].name {
      assert r[j] == tail[j - 1];
      if i > 0 { assert r[i] == tail[i - 1]; }
    }
  }

  /** A frame of `rows` rows: every column has one cell per row, and names are unique. */
  predicate WellFormed(cols: seq<Column>, rows: nat) {
    UniqueNames(cols) && forall j :: 0 <= j < |cols| ==> cols[j].data.Length() == rows
  }

  /** Column lookup by name, `df[name]`. */
  function Find(cols: seq<Column>, name: string): (r: Option<Column>)
    ensures r.Some? ==> r.value in cols && r.value.name == name
    ensures r.None? ==> forall c :: c in cols ==> c.name != name
  {
    if cols == [] then None
    else if cols[0].name == name then Some(cols[0])
    else Find(cols[1..], name)
  }

  /** With unique names, the lookup returns the one column of that name. */
  lemma UniqueFind(cols: seq<Column>, c: Column)
    requires UniqueNames(cols) && c in cols
    ensures Find(cols, c.name) == Some(c)
  {
    var r := Find(cols, c.name);
    var i :| 0 <= i < |cols| && cols[i] == r.value;
    var j :| 0 <= j < |cols| && cols[j] == c;
    assert cols[i].name == cols[j].name;
  }

  /**
   * Column assignment, `df[name] = data`: an existing column of that name is
   * replaced where it stands, otherwise a new column is appended at the end.
   */
  function Assign(cols: seq<Column>, name: string, data: ColumnData): seq<Column> {
    if HasColumn(cols, name) then
      seq(|cols|, j requires 0 <= j < |cols| => if cols[j].name == name then Column(name, data) else cols[j])
    else
      cols + [Column(name, data)]
  }

  /** Assignment keeps every column at its place (replacing the one named `name`) and appends only a new name. */
  lemma AssignShape(cols: seq<Column>, name: string, data: ColumnData)
    ensures |Assign(cols, name, data)| == if HasColumn(cols, name) then |cols| else |cols| + 1
    ensures forall j :: 0 <= j < |cols| ==>
      Assign(cols, name, data)[j] == if cols[j].name == name then Column(name, data) else cols[j]
    ensures !HasColumn(cols, name) ==> Assign(cols, name, data)[|cols|] == Column(name, data)
    ensures Names(Assign(cols, name, data)) == if HasColumn(cols, name) then Names(cols) else Names(cols) + [name]
  {
  }

  /** Assignment of a full-length column keeps the frame well formed. */
  lemma AssignWellFormed(cols: seq<Column>, rows: nat, name: string, data: ColumnData)
    requires WellFormed(cols, rows) && data.Length() == rows
    ensures WellFormed(Assign(cols, name, data), rows)
  {
    AssignShape(cols, name, data);
    var r := Assign(cols, name, data);
    forall i, j | 0 <= i < j < |r| ensures r[i].name != r[j].name {
      assert r[i].name == Names(r)[i] && r[j].name == Names(r)[j];
    }
  }

  /**
   * After assignment, `name` reads back as `data` and every other name reads
   * back as before.
   */
  lemma AssignFind(cols: seq<Column>, rows: nat, name: string, data: ColumnData, other: string)
    requires WellFormed(cols, rows) && data.Length() == rows
    ensures Find(Assign(cols, name, data), name) == Some(Column(name, data))
    ensures other != name ==> Find(Assign(cols, name, data), other) == Find(cols, other)
  {
    AssignFindSelf(cols, rows, name, data);
    if other != name {
      AssignFindOther(cols, rows, name, data, other);
    }
  }

  lemma AssignFindSelf(cols: seq<Column>, rows: nat, name: string, data: ColumnData)
    requires WellFormed(cols, rows) && data.Length() == rows
    ensures Find(Assign(cols, name, data), name) == Some(Column(name, data))
  {
    AssignShape(cols, name, data);
    AssignWellFormed(cols, rows, name, data);
    var r := Assign(cols, name, data);
    if HasColumn(cols, name) {
      var j :| 0 <= j < |cols| && cols[j].name == name;
      assert r[j] == Column(name, data);
    } else {
      assert r[|cols|] == Column(name, data);
    }
    UniqueFind(r, Column(name, data));
  }

  lemma AssignFindOther(cols: seq<Column>, rows: nat, name: string, data: ColumnData, other: string)
    requires WellFormed(cols, rows) && data.Length() == rows && other != name
    ensures Find(Assign(cols, name, data), other) == Find(cols, other)
  {
    AssignShape(cols, name, data);
    AssignWellFormed(cols, rows, name, data);
    var r := Assign(cols, name, data);
    if c :| c in cols && c.name == other {
      UniqueFind(cols, c);
      var j :| 0 <= j < |cols| && cols[j] == c;
      assert r[j] == c;
      UniqueFind(r, c);
    } else {
      forall c | c in r ensures c.name != other {
        var j :| 0 <= j < |r| && r[j] == c;
        if j < |cols| && cols[j].name != name {
          assert c == cols[j];
        }
      }
    }
  }

  /** A DataFrame updated in place: a list of columns over a fixed number of rows. */
  class DataFrame {
    var columns: seq<Column>
    var rows: nat

    predicate Valid()
      reads this
    {
      WellFormed(columns, rows)
    }

    /** `df.copy()`: a fresh frame holding the given columns. */
    constructor (columns: seq<Column>, rows: nat)
      requires WellFormed(columns, rows)
      ensures Valid() && this.columns == columns && this.rows == rows
    {
      this.columns := columns;
      this.rows := rows;
    }

    /** `df[name] = data`, replacing or appending a column in place. */
    method SetColumn(name: string, data: ColumnData)
      requires Valid() && data.Length() == rows
      modifies this
      ensures Valid() && rows == old(rows)
      ensures columns == Assign(old(columns), name, data)
    {
      AssignWellFormed(columns, rows, name, data);
      columns := Assign(columns, name, data);
    }
  }
}
