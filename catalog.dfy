/** Building the table descriptor from the catalog's column rows: for every
    row of the attribute query, in column order, one `AttrInfo` whose category
    comes from `TYPE_MAP`, or stays the default `Text(0)` for an id the table
    does not know. */
module Catalog {
  import opened MachineInts
  import opened Schema
  import opened TypedGenerator

  /** One row of the attribute query: name, type id and type modifier. */
  datatype CatalogRow = CatalogRow(attname: string, atttypid: u32, atttypmod: i32)

  /** The category a type id gets: the table's entry, or the default. */
  function CategoryOf(id: u32): (t: TypeInfo)
    ensures id in TYPE_MAP ==> t == TYPE_MAP[id]
    ensures t == DEFAULT_TYPE_INFO <==> id !in TYPE_MAP
  {
    if id in TYPE_MAP then TYPE_MAP[id] else DEFAULT_TYPE_INFO
  }

  function ColumnOf(row: CatalogRow): AttrInfo
  {
    AttrInfo(row.attname, CategoryOf(row.atttypid), row.atttypmod)
  }

  /** The descriptor's columns for the query's rows, in order. */
  function Describe(rows: seq<CatalogRow>): seq<AttrInfo>
    decreases |rows|
  {
    if rows == [] then [] else Describe(rows[..|rows| - 1]) + [ColumnOf(rows[|rows| - 1])]
  }

  /** Column `i` of the descriptor is row `i` of the query: same name, same
      modifier, the table's category for a known id and `Text(0)` otherwise. */
  lemma {:induction false} DescribeAt(rows: seq<CatalogRow>)
    ensures |Describe(rows)| == |rows|
    ensures forall i :: 0 <= i < |rows| ==>
      Describe(rows)[i].attname == rows[i].attname &&
      Describe(rows)[i].typmod == rows[i].atttypmod &&
      (rows[i].atttypid in TYPE_MAP ==> Describe(rows)[i].typeInfo == TYPE_MAP[rows[i].atttypid]) &&
      (rows[i].atttypid !in TYPE_MAP ==> Describe(rows)[i].typeInfo == Text(0))
    decreases |rows|
  {
    if rows != [] {
      var init := rows[..|rows| - 1];
      DescribeAt(init);
      forall i | 0 <= i < |rows| - 1
        ensures Describe(rows)[i] == ColumnOf(rows[i])
      {
        assert Describe(rows)[i] == Describe(init)[i];
        assert init[i] == rows[i];
      }
    }
  }

  /** A column is generated as text when its id maps to a text type or is unknown. */
  predicate GeneratedAsText(id: u32)
  {
    id !in TYPE_MAP || TYPE_MAP[id].Text?
  }

  /** A batch can be built for the described table exactly when every column
      generated as text has a modifier above 4 or none at all. */
  lemma DescribeGenerable(rows: seq<CatalogRow>)
    ensures Generable(Describe(rows)) <==>
      forall i :: 0 <= i < |rows| && GeneratedAsText(rows[i].atttypid) ==>
        rows[i].atttypmod > 4 || rows[i].atttypmod <= 0
  {
    DescribeAt(rows);
    var cols := Describe(rows);
    forall i | 0 <= i < |rows|
      ensures cols[i].typeInfo.Text? <==> GeneratedAsText(rows[i].atttypid)
      ensures TextMaxLength(cols[i].typmod) >= 1 <==> rows[i].atttypmod > 4 || rows[i].atttypmod <= 0
    {
      assert TextMaxLength(cols[i].typmod) >= 1 <==> cols[i].typmod > 4 || cols[i].typmod <= 0;
    }
  }

  /** `Describe` of more rows extends the descriptor by their columns. */
  lemma {:induction false} DescribeAppend(rows: seq<CatalogRow>, more: seq<CatalogRow>)
    ensures Describe(rows + more) == Describe(rows) + Describe(more)
    decreases |more|
  {
    if more == [] {
      assert rows + more == rows;
    } else {
      var init := more[..|more| - 1];
      assert (rows + more)[..|rows + more| - 1] == rows + init;
      DescribeAppend(rows, init);
    }
  }

  /** The descriptor loop: a default table named `table`, then one column per
      catalog row, appended in order. */
  method DescribeTable(table: string, catalog: seq<CatalogRow>, generator: Generator) returns (rel: Table)
    requires generator.Valid()
    ensures fresh(rel) && rel.Valid()
    ensures rel.tablename == table && rel.generator == generator
    ensures rel.tids == Describe(catalog)
  {
    rel := new Table(generator);
    rel.tablename := table;
    var k := 0;
    while k < |catalog|
      invariant 0 <= k <= |catalog|
      invariant rel.tablename == table && rel.generator == generator && rel.Valid()
      invariant rel.tids == Describe(catalog[..k])
    {
      var row := catalog[k];
      var attr := DEFAULT_ATTR_INFO;
      attr := attr.(attname := row.attname);
      var tid := row.atttypid;
      if tid in TYPE_MAP {
        attr := attr.(typeInfo := TYPE_MAP[tid]);
      }
      attr := attr.(typmod := row.atttypmod);
      assert catalog[..k + 1][..k] == catalog[..k];
      rel.tids := rel.tids + [attr];
      k := k + 1;
    }
    assert catalog[..k] == catalog;
  }
}
