/**
 * Feature-schema alignment: the first half of `engineer_features_for_scoring`.
 * A batch is reduced to its numeric, non-label columns and reindexed to the
 * process-wide feature schema, which the first batch establishes when no
 * persisted schema was loaded.
 */
module FeatureAlignment {
  import opened Wrappers
  import opened Frames

  /** The label column dropped before scoring. */
  const Label: string := "Class"

  /** `df.drop(columns=["Class"])` when the label is present. */
  function DropLabel(batch: seq<Column>): (r: seq<Column>)
    ensures forall c :: c in r <==> c in batch && c.name != Label
  {
    if batch == [] then []
    else (if batch[0].name != Label then [batch[0]] else []) + DropLabel(batch[1..])
  }

  /** `df.select_dtypes(include=[np.number])`. */
  function SelectNumeric(cols: seq<Column>): (r: seq<Column>)
    ensures forall c :: c in r <==> c in cols && c.data.IsNumeric()
  {
    if cols == [] then []
    else (if cols[0].data.IsNumeric() then [cols[0]] else []) + SelectNumeric(cols[1..])
  }

  /** The columns that survive into scoring, in their original order. */
  function Retained(batch: seq<Column>): seq<Column> {
    SelectNumeric(DropLabel(batch))
  }

  /** The feature list a first batch establishes: `list(df.columns)` after the two filters. */
  function Candidates(batch: seq<Column>): seq<string> {
    Names(Retained(batch))
  }

  /** A column survives exactly when it is numeric and is not the label. */
  lemma RetainedMembers(batch: seq<Column>, c: Column)
    ensures c in Retained(batch) <==> c in batch && c.name != Label && c.data.IsNumeric()
  {
  }

  /** Both filters work column by column, so they keep the batch's column order. */
  lemma {:induction false} RetainedAppend(a: seq<Column>, b: seq<Column>)
    ensures Retained(a + b) == Retained(a) + Retained(b)
  {
    DropLabelAppend(a, b);
    SelectNumericAppend(DropLabel(a), DropLabel(b));
  }

  lemma {:induction false} DropLabelAppend(a: seq<Column>, b: seq<Column>)
    ensures DropLabel(a + b) == DropLabel(a) + DropLabel(b)
  {
    if a != [] {
      assert (a + b)[1..] == a[1..] + b;
      DropLabelAppend(a[1..], b);
    } else {
      assert a + b == b;
    }
  }

  lemma {:induction false} SelectNumericAppend(a: seq<Column>, b: seq<Column>)
    ensures SelectNumeric(a + b) == SelectNumeric(a) + SelectNumeric(b)
  {
    if a != [] {
      assert (a + b)[1..] == a[1..] + b;
      SelectNumericAppend(a[1..], b);
    } else {
      assert a + b == b;
    }
  }

  /** A batch with nothing to drop is retained whole, in the same order. */
  lemma {:induction false} RetainedAllNumeric(batch: seq<Column>)
    requires forall c :: c in batch ==> c.name != Label && c.data.IsNumeric()
    ensures Retained(batch) == batch
  {
    if batch != [] {
      assert batch == [batch[0]] + batch[1..];
      RetainedAppend([batch[0]], batch[1..]);
      RetainedAllNumeric(batch[1..]);
    }
  }

  /** Filtering never creates a duplicate name. */
  lemma RetainedUnique(batch: seq<Column>)
    requires UniqueNames(batch)
    ensures UniqueNames(Retained(batch))
  {
    DropLabelUnique(batch);
    SelectNumericUnique(DropLabel(batch));
  }

  lemma {:induction false} DropLabelUnique(batch: seq<Column>)
    requires UniqueNames(batch)
    ensures UniqueNames(DropLabel(batch))
  {
    if batch != [] {
      DropLabelUnique(batch[1..]);
      if batch[0].name != Label {
        forall c | c in DropLabel(batch[1..]) ensures c.name != batch[0].name {
          var k :| 0 <= k < |batch[1..]| && batch[1..][k] == c;
          assert batch[k + 1] == c;
        }
        UniquePrepend(batch[0], DropLabel(batch[1..]));
      }
    }
  }

  lemma {:induction false} SelectNumericUnique(cols: seq<Column>)
    requires UniqueNames(cols)
    ensures UniqueNames(SelectNumeric(cols))
  {
    if cols != [] {
      SelectNumericUnique(cols[1..]);
      if cols[0].data.IsNumeric() {
        forall c | c in SelectNumeric(cols[1..]) ensures c.name != cols[0].name {
          var k :| 0 <= k < |cols[1..]| && cols[1..][k] == c;
          assert cols[k + 1] == c;
        }
        UniquePrepend(cols[0], SelectNumeric(cols[1..]));
      }
    }
  }

  /**
   * A freshly established schema never holds the label or a non-numeric
   * column, holds the name of every numeric non-label column, and has no
   * duplicates.
   */
  lemma CandidatesProperties(batch: seq<Column>)
    requires UniqueNames(batch)
    ensures Label !in Candidates(batch)
    ensures forall name :: name in Candidates(batch) <==>
      exists c :: c in batch && c.name == name && name != Label && c.data.IsNumeric()
    ensures forall i, j :: 0 <= i < j < |Candidates(batch)| ==> Candidates(batch)[i] != Candidates(batch)[j]
  {
    var r := Retained(batch);
    RetainedUnique(batch);
    forall name ensures name in Candidates(batch) <==>
      exists c :: c in batch && c.name == name && name != Label && c.data.IsNumeric()
    {
      if name in Candidates(batch) {
        var j :| 0 <= j < |r| && Names(r)[j] == name;
        RetainedMembers(batch, r[j]);
      }
      if c :| c in batch && c.name == name && name != Label && c.data.IsNumeric() {
        RetainedMembers(batch, c);
        var j :| 0 <= j < |r| && r[j] == c;
        assert Names(r)[j] == name;
      }
    }
  }

  /**
   * The values of one schema column after `reindex(..., fill_value=0)`: the
   * retained column of that name, or zeros when the batch has none.
   */
  function Filled(batch: seq<Column>, name: string, rows: nat): (v: seq<real>)
    requires WellFormed(batch, rows)
    ensures |v| == rows
  {
    match Find(Retained(batch), name)
    case Some(c) => RetainedMembers(batch, c); c.data.AsReals()
    case None => seq(rows, _ => 0.0)
  }

  /** `df.reindex(columns=features, fill_value=0)` applied to the retained columns. */
  function Reindex(batch: seq<Column>, schema: seq<string>, rows: nat): (aligned: seq<Column>)
    requires WellFormed(batch, rows)
    ensures Names(aligned) == schema
    ensures forall j :: 0 <= j < |aligned| ==> aligned[j].data.Floats? && aligned[j].data.Length() == rows
  {
    seq(|schema|, j requires 0 <= j < |schema| => Column(schema[j], Floats(Filled(batch, schema[j], rows))))
  }

  /** A schema column the batch lacks (or holds only as label or text) is all zeros. */
  lemma ReindexFillsMissing(batch: seq<Column>, schema: seq<string>, rows: nat, j: nat)
    requires WellFormed(batch, rows) && j < |schema|
    requires forall c :: c in batch && c.name == schema[j] ==> c.name == Label || !c.data.IsNumeric()
    ensures forall i :: 0 <= i < rows ==> Reindex(batch, schema, rows)[j].data.reals[i] == 0.0
  {
    match Find(Retained(batch), schema[j])
    case Some(c) => RetainedMembers(batch, c);
    case None =>
  }

  /** A schema column the batch holds as a numeric non-label column keeps its values row by row. */
  lemma ReindexKeepsPresent(batch: seq<Column>, schema: seq<string>, rows: nat, j: nat, c: Column)
    requires WellFormed(batch, rows) && j < |schema|
    requires c in batch && c.name == schema[j] && c.name != Label && c.data.IsNumeric()
    ensures Reindex(batch, schema, rows)[j].data.reals == c.data.AsReals()
  {
    RetainedUnique(batch);
    RetainedMembers(batch, c);
    UniqueFind(Retained(batch), c);
  }

  /** Once the schema is fixed, the result does not depend on the batch's column order. */
  lemma ReindexIgnoresColumnOrder(a: seq<Column>, b: seq<Column>, schema: seq<string>, rows: nat)
    requires WellFormed(a, rows) && WellFormed(b, rows)
    requires multiset(a) == multiset(b)
    ensures Reindex(a, schema, rows) == Reindex(b, schema, rows)
  {
    forall j | 0 <= j < |schema| ensures Reindex(a, schema, rows)[j] == Reindex(b, schema, rows)[j] {
      FilledIgnoresOrder(a, b, schema[j], rows);
    }
  }

  lemma FilledIgnoresOrder(a: seq<Column>, b: seq<Column>, name: string, rows: nat)
    requires WellFormed(a, rows) && WellFormed(b, rows)
    requires multiset(a) == multiset(b)
    ensures Filled(a, name, rows) == Filled(b, name, rows)
  {
    if c :| c in a && c.name == name && name != Label && c.data.IsNumeric() {
      assert c in multiset(b);
      ReindexKeepsPresent(a, [name], rows, 0, c);
      ReindexKeepsPresent(b, [name], rows, 0, c);
    } else {
      forall c | c in b && c.name == name ensures c.name == Label || !c.data.IsNumeric() {
        assert c in multiset(a);
      }
      ReindexFillsMissing(a, [name], rows, 0);
      ReindexFillsMissing(b, [name], rows, 0);
    }
  }

  /** Aligning an aligned batch to the same duplicate-free schema changes nothing. */
  lemma ReindexIdempotent(batch: seq<Column>, schema: seq<string>, rows: nat)
    requires WellFormed(batch, rows)
    requires forall i, j :: 0 <= i < j < |schema| ==> schema[i] != schema[j]
    ensures WellFormed(Reindex(batch, schema, rows), rows)
    ensures Reindex(Reindex(batch, schema, rows), schema, rows) == Reindex(batch, schema, rows)
  {
    var r := Reindex(batch, schema, rows);
    assert UniqueNames(r) by {
      forall i, j | 0 <= i < j < |r| ensures r[i].name != r[j].name {
        assert r[i].name == Names(r)[i] && r[j].name == Names(r)[j];
      }
    }
    forall j | 0 <= j < |schema| ensures Filled(r, schema[j], rows) == Filled(batch, schema[j], rows) {
      assert r[j].name == Names(r)[j];
      if schema[j] == Label {
        ReindexFillsMissing(batch, schema, rows, j);
        ReindexFillsMissing(r, schema, rows, j);
      } else {
        ReindexKeepsPresent(r, schema, rows, j, r[j]);
      }
    }
  }

  /** A first batch is aligned to exactly its retained columns: nothing filled, nothing dropped. */
  lemma BootstrapKeepsRetained(batch: seq<Column>, rows: nat)
    requires WellFormed(batch, rows)
    ensures |Reindex(batch, Candidates(batch), rows)| == |Retained(batch)|
    ensures forall j :: 0 <= j < |Retained(batch)| ==>
      Reindex(batch, Candidates(batch), rows)[j] == Column(Retained(batch)[j].name, Floats(Retained(batch)[j].data.AsReals()))
  {
    var r := Retained(batch);
    forall j | 0 <= j < |r|
      ensures r[j].data.IsNumeric()
      ensures Reindex(batch, Candidates(batch), rows)[j] == Column(r[j].name, Floats(r[j].data.AsReals()))
    {
      RetainedMembers(batch, r[j]);
      assert Candidates(batch)[j] == r[j].name;
      ReindexKeepsPresent(batch, Candidates(batch), rows, j, r[j]);
    }
  }

  /** The aligned columns as the N x F matrix handed to the scaler, row by row. */
  function ToRows(aligned: seq<Column>, rows: nat): (m: Matrix)
    requires forall j :: 0 <= j < |aligned| ==> aligned[j].data.IsNumeric() && aligned[j].data.Length() == rows
    ensures |m| == rows && forall i :: 0 <= i < rows ==> |m[i]| == |aligned|
    ensures forall i, j :: 0 <= i < rows && 0 <= j < |aligned| ==> m[i][j] == aligned[j].data.AsReals()[i]
  {
    seq(rows, i requires 0 <= i < rows =>
      seq(|aligned|, j requires 0 <= j < |aligned| => aligned[j].data.AsReals()[i]))
  }

  /** The schema after an alignment call: kept once set, otherwise taken from the batch. */
  function Established(current: Option<seq<string>>, batch: seq<Column>): seq<string> {
    match current
    case Some(features) => features
    case None => Candidates(batch)
  }

  /** The schema after aligning each of `batches` in turn, starting from `current`. */
  function SchemaAfter(current: Option<seq<string>>, batches: seq<seq<Column>>): Option<seq<string>>
    decreases |batches|
  {
    if |batches| == 0 then current
    else SchemaAfter(Some(Established(current, batches[0])), batches[1..])
  }

  /**
   * The schema is fixed by the first batch ever aligned (or by the persisted
   * list): no later batch changes it.
   */
  lemma {:induction false} SchemaFixedByFirstBatch(current: Option<seq<string>>, batches: seq<seq<Column>>)
    ensures batches == [] ==> SchemaAfter(current, batches) == current
    ensures batches != [] ==> SchemaAfter(current, batches) == Some(Established(current, batches[0]))
    decreases |batches|
  {
    if batches != [] {
      var first := Some(Established(current, batches[0]));
      SchemaFixedByFirstBatch(first, batches[1..]);
    }
  }

  /**
   * Without a persisted list, a first batch with no numeric non-label column
   * fixes the empty schema, and it stays empty whatever batches follow.
   */
  lemma NoFeaturesFirstBatch(batch: seq<Column>, later: seq<seq<Column>>)
    requires forall c :: c in batch ==> c.name == Label || !c.data.IsNumeric()
    ensures Established(None, batch) == []
    ensures SchemaAfter(None, [batch] + later) == Some([])
  {
    NothingRetained(batch);
    SchemaFixedByFirstBatch(None, [batch] + later);
    assert ([batch] + later)[0] == batch;
  }

  /** A batch with no numeric non-label column keeps nothing through the two filters. */
  lemma {:induction false} NothingRetained(batch: seq<Column>)
    requires forall c :: c in batch ==> c.name == Label || !c.data.IsNumeric()
    ensures Retained(batch) == []
  {
    if batch != [] {
      NothingRetained(batch[1..]);
      assert batch == [batch[0]] + batch[1..];
      RetainedAppend([batch[0]], batch[1..]);
      assert DropLabel([batch[0]]) == (if batch[0].name != Label then [batch[0]] else []);
    }
  }

  /** Under any schema, a batch with no numeric non-label column aligns to zeros everywhere. */
  lemma NoFeaturesZeroFilled(batch: seq<Column>, schema: seq<string>, rows: nat)
    requires WellFormed(batch, rows)
    requires forall c :: c in batch ==> c.name == Label || !c.data.IsNumeric()
    ensures forall j, i :: 0 <= j < |schema| && 0 <= i < rows ==> Reindex(batch, schema, rows)[j].data.reals[i] == 0.0
  {
    forall j | 0 <= j < |schema|
      ensures forall i :: 0 <= i < rows ==> Reindex(batch, schema, rows)[j].data.reals[i] == 0.0
    {
      ReindexFillsMissing(batch, schema, rows, j);
    }
  }

  /** A label column after numeric feature columns is the only one left out of a fresh schema. */
  lemma TrailingLabelDropped(features: seq<Column>, classes: ColumnData)
    requires forall c :: c in features ==> c.name != Label && c.data.IsNumeric()
    ensures Established(None, features + [Column(Label, classes)]) == Names(features)
  {
    RetainedAllNumeric(features);
    assert Retained([Column(Label, classes)]) == [] by {
      assert DropLabel([Column(Label, classes)]) == [];
    }
    RetainedAppend(features, [Column(Label, classes)]);
  }

  /**
   * Bootstrap: numeric columns A, B, C followed by the label establish the
   * schema [A, B, C]; the label never enters it.
   */
  lemma BootstrapScenario(x: string, y: string, z: string, a: ColumnData, b: ColumnData, c: ColumnData, classes: ColumnData)
    requires x != Label && y != Label && z != Label
    requires a.IsNumeric() && b.IsNumeric() && c.IsNumeric()
    ensures Established(None, [Column(x, a), Column(y, b), Column(z, c), Column(Label, classes)]) == [x, y, z]
  {
    var features := [Column(x, a), Column(y, b), Column(z, c)];
    TrailingLabelDropped(features, classes);
    assert features + [Column(Label, classes)] == [Column(x, a), Column(y, b), Column(z, c), Column(Label, classes)];
    assert Names(features) == [x, y, z] by {
      assert Names(features)[0] == x && Names(features)[1] == y && Names(features)[2] == z;
    }
  }

  /**
   * Reindex: under the schema [A, B, C] a batch with columns B, C, D is
   * aligned to A, B, C in that order, A all zeros and D gone.
   */
  lemma ReindexScenario(b: ColumnData, c: ColumnData, d: ColumnData, rows: nat)
    requires b.IsNumeric() && c.IsNumeric() && b.Length() == rows && c.Length() == rows && d.Length() == rows
    ensures var aligned := Reindex([Column("B", b), Column("C", c), Column("D", d)], ["A", "B", "C"], rows);
      Names(aligned) == ["A", "B", "C"] &&
      aligned[0].data == Floats(seq(rows, _ => 0.0)) &&
      aligned[1].data == Floats(b.AsReals()) &&
      aligned[2].data == Floats(c.AsReals())
  {
    var batch := [Column("B", b), Column("C", c), Column("D", d)];
    assert WellFormed(batch, rows);
    ReindexFillsMissing(batch, ["A", "B", "C"], rows, 0);
    assert batch[0] in batch && batch[1] in batch;
    ReindexKeepsPresent(batch, ["A", "B", "C"], rows, 1, batch[0]);
    ReindexKeepsPresent(batch, ["A", "B", "C"], rows, 2, batch[1]);
  }

  /** The process-wide feature schema and the alignment that reads (and once writes) it. */
  class FeatureAligner {
    var features: Option<seq<string>>

    /** Startup: the persisted feature list if one was loaded, otherwise unset. */
    constructor (persisted: Option<seq<string>>)
      ensures features == persisted
    {
      features := persisted;
    }

    /** Drop the label, keep numeric columns, establish the schema if unset, reindex to it. */
    method Align(batch: seq<Column>, rows: nat) returns (aligned: seq<Column>)
      requires WellFormed(batch, rows)
      modifies this
      ensures old(features).Some? ==> features == old(features)
      ensures old(features).None? ==> features == Some(Candidates(batch))
      ensures features == Some(Established(old(features), batch))
      ensures aligned == Reindex(batch, features.value, rows)
    {
      if features.None? {
        features := Some(Candidates(batch));
      }
      aligned := Reindex(batch, features.value, rows);
    }
  }
}
