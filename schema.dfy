/** Column type categories, the catalog type table, column descriptors and
    the batch INSERT builder of `Table`. */
module Schema {
  import opened MachineInts
  import opened Strings
  import opened JsonText
  import opened TypedGenerator

  /** A value category, tagged with the catalog type id it came from. */
  datatype TypeInfo =
    | Text(id: u32)
    | Int(id: u32)
    | Float(id: u32)
    | Bool(id: u32)
    | Time(id: u32)
    | Json(id: u32)

  /** `TypeInfo::default()`. */
  const DEFAULT_TYPE_INFO: TypeInfo := Text(0)

  /** The default category is text, tagged with an id the type table does not know. */
  lemma DefaultIsUnknownText()
    ensures DEFAULT_TYPE_INFO.Text? && DEFAULT_TYPE_INFO.id !in TYPE_MAP
  {
  }

  /** The catalog type ids the filler knows, with their categories. */
  const TYPE_MAP: map<u32, TypeInfo> := map[
    1042 := Text(1042),
    1043 := Text(1043),
    25 := Text(25),
    20 := Int(20),
    23 := Int(23),
    26 := Int(26),
    27 := Int(27),
    28 := Int(28),
    29 := Int(29),
    1700 := Float(1700),
    701 := Float(701),
    16 := Bool(16),
    1114 := Time(1114),
    1184 := Time(1184),
    1082 := Time(1082),
    3802 := Json(16)
  ]

  /** The ids the table knows: sixteen distinct ones. */
  lemma TypeMapKeys()
    ensures TYPE_MAP.Keys == {1042, 1043, 25, 20, 23, 26, 27, 28, 29, 1700, 701, 16, 1114, 1184, 1082, 3802}
    ensures |TYPE_MAP.Keys| == 16
  {
    var ids: set<u32> := {1042, 1043, 25, 20, 23, 26, 27, 28, 29, 1700, 701, 16, 1114, 1184, 1082, 3802};
    assert |ids| == 16;
  }

  /** The table has exactly sixteen entries. */
  lemma TypeMapSize()
    ensures |TYPE_MAP| == 16
  {
    TypeMapKeys();
    assert |TYPE_MAP.Keys| == |TYPE_MAP|;
  }

  /** Each entry carries its own key as tag except 3802, whose entry is `Json(16)`. */
  lemma TypeMapTags()
    ensures forall k :: k in TYPE_MAP && k != 3802 ==> TYPE_MAP[k].id == k
    ensures TYPE_MAP[3802] == Json(16)
  {
  }

  /** Which ids fall into which category. */
  lemma TypeMapCategories(k: u32)
    requires k in TYPE_MAP
    ensures TYPE_MAP[k].Text? <==> k == 1042 || k == 1043 || k == 25
    ensures TYPE_MAP[k].Int? <==> k in {20, 23, 26, 27, 28, 29}
    ensures TYPE_MAP[k].Float? <==> k == 1700 || k == 701
    ensures TYPE_MAP[k].Bool? <==> k == 16
    ensures TYPE_MAP[k].Time? <==> k == 1114 || k == 1184 || k == 1082
    ensures TYPE_MAP[k].Json? <==> k == 3802
  {
  }

  /** One column: its name, category and the catalog's type modifier. */
  datatype AttrInfo = AttrInfo(attname: string, typeInfo: TypeInfo, typmod: i32)

  /** `AttrInfo::default()`. */
  const DEFAULT_ATTR_INFO: AttrInfo := AttrInfo("", DEFAULT_TYPE_INFO, 0)

  /** `quote_val(c, s)`: `s` wrapped in `c` on both sides. */
  function QuoteVal(c: char, s: string): (r: string)
    ensures |r| == |s| + 2
    ensures r[0] == c && r[|r| - 1] == c
    ensures r[1..|r| - 1] == s
  {
    [c] + s + [c]
  }

  /** The `maxlength` passed to `get_text`: the declared length of a
      varchar(n), whose type modifier is n + 4, or 500 without a modifier. */
  function TextMaxLength(typmod: i32): (r: int)
    ensures typmod <= 0 ==> r == 500
    ensures r >= 1 <==> typmod > 4 || typmod <= 0
  {
    if typmod > 0 then typmod - 4 else 500
  }

  /** For a varchar(n) column, whose type modifier is n + 4, the length bound is n. */
  lemma VarcharMaxLength(n: i32)
    requires 1 <= n < 0x7FFF_FFFC
    ensures TextMaxLength((n + 4) as i32) == n
  {
  }

  /** With a declared modifier the bound is the modifier less 4, so it grows
      with the declared length and has no other upper limit. */
  lemma TextMaxLengthOfTypmod(typmod: i32)
    ensures typmod > 0 ==> TextMaxLength(typmod) == typmod - 4 < typmod
  {
  }

  /** Text and Time fields are quoted; the other categories are written bare. */
  predicate Quoted(t: TypeInfo) {
    t.Text? || t.Time?
  }

  /** `d` is something the synthesizer for `attr`'s category can return. */
  predicate Fits(attr: AttrInfo, d: Drawn) {
    match attr.typeInfo
    case Text(_) => d.DrawnText? && |d.chars| < TextMaxLength(attr.typmod) && FromCharset(d.chars)
    case Int(_) => d.DrawnInt? && d.n < 1000
    case Float(_) => d.DrawnFloat?
    case Bool(_) => d.DrawnBool?
    case Time(_) => d.DrawnTime? && IsTimestamp(d.stamp)
    case Json(_) => d.DrawnJson? && JsonKeysFit(d.keys)
  }

  /** One drawn value per column, each fitting its column. */
  predicate RowFits(tids: seq<AttrInfo>, row: seq<Drawn>) {
    |row| == |tids| && forall j :: 0 <= j < |tids| ==> Fits(tids[j], row[j])
  }

  predicate AllRowsFit(tids: seq<AttrInfo>, rows: seq<seq<Drawn>>) {
    forall i :: 0 <= i < |rows| ==> RowFits(tids, rows[i])
  }

  /** Every text column can be generated: `get_text` panics on an empty length range. */
  predicate Generable(tids: seq<AttrInfo>) {
    forall j :: 0 <= j < |tids| && tids[j].typeInfo.Text? ==> TextMaxLength(tids[j].typmod) >= 1
  }

  function FieldText(attr: AttrInfo, d: Drawn): string
  {
    if Quoted(attr.typeInfo) then QuoteVal('\'', Render(d)) else Render(d)
  }

  function FieldTexts(tids: seq<AttrInfo>, row: seq<Drawn>): (r: seq<string>)
    requires |row| == |tids|
    ensures |r| == |tids|
  {
    seq(|tids|, j requires 0 <= j < |tids| => FieldText(tids[j], row[j]))
  }

  /** A value tuple: `(` fields `)`; with no columns only the `(` is written. */
  function TupleText(fields: seq<string>): string
  {
    if fields == [] then "(" else "(" + Join(fields, ',') + ")"
  }

  function TupleTexts(tids: seq<AttrInfo>, rows: seq<seq<Drawn>>): (r: seq<string>)
    requires AllRowsFit(tids, rows)
    ensures |r| == |rows|
  {
    seq(|rows|, i requires 0 <= i < |rows| => TupleText(FieldTexts(tids, rows[i])))
  }

  /** The fixed text in front of the tuples. */
  function StatementHead(tablename: string): string
  {
    "insert into " + tablename + " values "
  }

  function InsertStatement(tablename: string, tuples: seq<string>): string
  {
    StatementHead(tablename) + Join(tuples, ',') + ";"
  }

  // ---------------------------------------------------------------------------
  // Properties of the generated text

  /** Characters the statement's structure depends on. */
  const SQL_PUNCT: set<char> := {'(', ')', '\''}

  lemma TimestampAvoids(s: string, bad: set<char>)
    requires IsTimestamp(s)
    requires forall c :: c in bad ==> !IsDigit(c) && c != '-' && c != 'T' && c != ':' && c != 'Z'
    ensures Avoids(s, bad)
  {
    forall i | 0 <= i < 20
      ensures s[i] !in bad
    {
      if i < 4 { assert s[0..4][i] == s[i]; }
      else if 5 <= i < 7 { assert s[5..7][i - 5] == s[i]; }
      else if 8 <= i < 10 { assert s[8..10][i - 8] == s[i]; }
      else if 11 <= i < 13 { assert s[11..13][i - 11] == s[i]; }
      else if 14 <= i < 16 { assert s[14..16][i - 14] == s[i]; }
      else if 17 <= i < 19 { assert s[17..19][i - 17] == s[i]; }
    }
  }

  /** No generated value contains a parenthesis or a single quote, so values
      need no escaping and quoting is unambiguous. */
  lemma RenderAvoidsPunct(attr: AttrInfo, d: Drawn)
    requires Fits(attr, d)
    ensures Avoids(Render(d), SQL_PUNCT)
  {
    match d
    case DrawnText(chars) => CharsetAvoids(chars, SQL_PUNCT);
    case DrawnInt(n) =>
    case DrawnFloat(a) =>
    case DrawnBool(b) =>
    case DrawnTime(stamp) => TimestampAvoids(stamp, SQL_PUNCT);
    case DrawnJson(keys) => JsonObjectAvoids(keys, SQL_PUNCT);
  }

  /** A field holds a single quote exactly at its two ends when it is a Text
      or Time field, and none otherwise. */
  lemma FieldQuotes(attr: AttrInfo, d: Drawn)
    requires Fits(attr, d)
    ensures Count(FieldText(attr, d), '\'') == if Quoted(attr.typeInfo) then 2 else 0
    ensures Count(FieldText(attr, d), '(') == 0
  {
    RenderAvoidsPunct(attr, d);
    var r := Render(d);
    CountAvoided(r, '\'');
    CountAvoided(r, '(');
    if Quoted(attr.typeInfo) {
      CountAppend(['\''] + r, ['\''], '\'');
      CountAppend(['\''], r, '\'');
      CountAppend(['\''] + r, ['\''], '(');
      CountAppend(['\''], r, '(');
    }
  }

  /** Every tuple opens with exactly one parenthesis. */
  lemma TupleParens(tids: seq<AttrInfo>, row: seq<Drawn>)
    requires RowFits(tids, row)
    ensures Count(TupleText(FieldTexts(tids, row)), '(') == 1
  {
    var fields := FieldTexts(tids, row);
    if fields != [] {
      forall j | 0 <= j < |fields|
        ensures Count(fields[j], '(') == 0
      {
        FieldQuotes(tids[j], row[j]);
      }
      SumCountsUniform(fields, '(', 0);
      CountJoin(fields, ',', '(');
      CountAppend("(", Join(fields, ','), '(');
      CountAppend("(" + Join(fields, ','), ")", '(');
    }
  }

  /** A statement built from `rows` carries exactly `|rows|` value tuples:
      one `(` per tuple beyond those in the table name. */
  lemma StatementTupleCount(tablename: string, tids: seq<AttrInfo>, rows: seq<seq<Drawn>>)
    requires AllRowsFit(tids, rows)
    ensures Count(InsertStatement(tablename, TupleTexts(tids, rows)), '(') == Count(tablename, '(') + |rows|
  {
    var tuples := TupleTexts(tids, rows);
    var j := Join(tuples, ',');
    assert Count(j, '(') == |rows| by {
      forall i | 0 <= i < |tuples|
        ensures Count(tuples[i], '(') == 1
      {
        TupleParens(tids, rows[i]);
      }
      SumCountsUniform(tuples, '(', 1);
      CountJoin(tuples, ',', '(');
    }
    var head := StatementHead(tablename);
    HeadParens(tablename);
    CountAppend(head, j, '(');
    CountAppend(head + j, ";", '(');
  }

  /** The statement head adds no parenthesis of its own. */
  lemma HeadParens(tablename: string)
    ensures Count(StatementHead(tablename), '(') == Count(tablename, '(')
  {
    CountAppend("insert into ", tablename, '(');
    CountAppend("insert into " + tablename, " values ", '(');
  }

  /** With `batch = 0` the statement has no tuples at all. */
  lemma EmptyBatchStatement(tablename: string, tids: seq<AttrInfo>)
    ensures InsertStatement(tablename, TupleTexts(tids, [])) == "insert into " + tablename + " values ;"
  {
  }

  /** What `generate_one_value` has written after the first `|row|` columns:
      each field followed by a comma, or, once the last column is done, the
      fields joined and closed by `)`. */
  function PartialTuple(cols: seq<AttrInfo>, row: seq<Drawn>, done: bool): string
    requires |row| == |cols|
  {
    "(" + (if done && cols != [] then Join(FieldTexts(cols, row), ',') + ")" else Terminated(FieldTexts(cols, row), ','))
  }

  /** One loop step of `generate_one_value`: column `idx` gets value `d`, its
      field is appended, then `)` after the last column and `,` otherwise. */
  lemma TupleStep(cols: seq<AttrInfo>, idx: nat, row: seq<Drawn>, tuple: string, d: Drawn)
    requires idx < |cols| && RowFits(cols[..idx], row) && Fits(cols[idx], d)
    requires tuple == PartialTuple(cols[..idx], row, false)
    ensures RowFits(cols[..idx + 1], row + [d])
    ensures tuple + FieldText(cols[idx], d) + (if idx == |cols| - 1 then ")" else ",")
         == PartialTuple(cols[..idx + 1], row + [d], idx + 1 == |cols|)
  {
    var attr, pre := cols[idx], cols[..idx];
    assert cols[..idx + 1] == pre + [attr];
    RowFitsSnoc(pre, row, attr, d);
    var fields, f := FieldTexts(pre, row), FieldText(attr, d);
    assert FieldTexts(cols[..idx + 1], row + [d]) == fields + [f] by {
      FieldTextsSnoc(pre, row, attr, d);
    }
    SnocAfter("(", fields, f, ',');
    if idx == |cols| - 1 {
      assert PartialTuple(cols[..idx + 1], row + [d], true) == "(" + Join(fields + [f], ',') + ")";
    } else {
      assert PartialTuple(cols[..idx + 1], row + [d], false) == "(" + Terminated(fields + [f], ',');
    }
  }

  lemma FieldTextsSnoc(cols: seq<AttrInfo>, row: seq<Drawn>, attr: AttrInfo, d: Drawn)
    requires |row| == |cols|
    ensures FieldTexts(cols + [attr], row + [d]) == FieldTexts(cols, row) + [FieldText(attr, d)]
  {
    var l, r := FieldTexts(cols + [attr], row + [d]), FieldTexts(cols, row) + [FieldText(attr, d)];
    forall j | 0 <= j < |cols| + 1
      ensures l[j] == r[j]
    {
      if j < |cols| {
        assert (cols + [attr])[j] == cols[j] && (row + [d])[j] == row[j];
      }
    }
  }

  lemma RowFitsSnoc(cols: seq<AttrInfo>, row: seq<Drawn>, attr: AttrInfo, d: Drawn)
    requires RowFits(cols, row) && Fits(attr, d)
    ensures RowFits(cols + [attr], row + [d])
  {
    forall j | 0 <= j < |cols| + 1
      ensures Fits((cols + [attr])[j], (row + [d])[j])
    {
      if j < |cols| {
        assert (cols + [attr])[j] == cols[j] && (row + [d])[j] == row[j];
      }
    }
  }

  /** The loop's output once every column is done is the tuple text. */
  lemma PartialTupleDone(cols: seq<AttrInfo>, row: seq<Drawn>)
    requires |row| == |cols|
    ensures PartialTuple(cols, row, true) == TupleText(FieldTexts(cols, row))
  {
  }

  /** One loop step of `generate_insertbatch`: the new row fits and its tuple
      is appended to the tuples so far. */
  lemma BatchSnoc(tids: seq<AttrInfo>, rows: seq<seq<Drawn>>, row: seq<Drawn>)
    requires AllRowsFit(tids, rows) && RowFits(tids, row)
    ensures AllRowsFit(tids, rows + [row])
    ensures TupleTexts(tids, rows + [row]) == TupleTexts(tids, rows) + [TupleText(FieldTexts(tids, row))]
  {
    assert AllRowsFit(tids, rows + [row]) by {
      forall i | 0 <= i < |rows| + 1
        ensures RowFits(tids, (rows + [row])[i])
      {
        if i < |rows| {
          assert (rows + [row])[i] == rows[i];
        }
      }
    }
  }

  // ---------------------------------------------------------------------------
  // The table descriptor and its batch builder

  class Table {
    var tablename: string
    var tids: seq<AttrInfo>
    const generator: Generator

    ghost predicate Valid()
      reads generator.clock
    {
      generator.Valid()
    }

    /** `Table::default()`, with the generator supplied by the caller. */
    constructor (generator: Generator)
      requires generator.Valid()
      ensures tablename == "" && tids == [] && this.generator == generator
      ensures Valid()
    {
      tablename := "";
      tids := [];
      this.generator := generator;
    }

    /** The `match` of `generate_one_value` on one column's category: the
        synthesizer it calls and whether the result is quoted. */
    method GenerateField(attr: AttrInfo) returns (field: string, ghost d: Drawn)
      requires Valid()
      requires attr.typeInfo.Text? ==> TextMaxLength(attr.typmod) >= 1
      modifies generator.rng, generator.clock
      ensures Valid()
      ensures Fits(attr, d)
      ensures field == FieldText(attr, d)
    {
      match attr.typeInfo {
        case Text(_) =>
          var maxlength: i32 := 500;
          if attr.typmod > 0 {
            maxlength := attr.typmod - 4;
          }
          var t := generator.GetText(maxlength);
          field := QuoteVal('\'', t);
          d := DrawnText(t);
        case Int(_) =>
          ghost var n;
          field, n := generator.GetInt();
          d := DrawnInt(n);
        case Float(_) =>
          ghost var a;
          field, a := generator.GetFloat();
          d := DrawnFloat(a);
        case Bool(_) =>
          ghost var b;
          field, b := generator.GetBool();
          d := DrawnBool(b);
        case Time(_) =>
          var t := generator.GetTime();
          field := QuoteVal('\'', t);
          d := DrawnTime(t);
        case Json(_) =>
          ghost var keys, popped;
          field, keys, popped := generator.GetJson();
          d := DrawnJson(keys);
      }
    }

    /** `generate_one_value`: one tuple, a field per column in column order. */
    method GenerateOneValue() returns (tuple: string, ghost row: seq<Drawn>)
      requires Valid()
      requires Generable(tids)
      modifies generator.rng, generator.clock
      ensures Valid()
      ensures RowFits(tids, row)
      ensures tuple == TupleText(FieldTexts(tids, row))
    {
      var cols := tids;
      tuple := "(";
      row := [];
      var idx := 0;
      while idx < |cols|
        invariant 0 <= idx <= |cols|
        invariant Valid()
        invariant RowFits(cols[..idx], row)
        invariant tuple == PartialTuple(cols[..idx], row, idx == |cols|)
      {
        var field, d := GenerateField(cols[idx]);
        TupleStep(cols, idx, row, tuple, d);
        if idx == |cols| - 1 {
          tuple := tuple + field + ")";
        } else {
          tuple := tuple + field + ",";
        }
        row := row + [d];
        idx := idx + 1;
      }
      assert cols[..idx] == cols;
      PartialTupleDone(cols, row);
    }

    /** `generate_insertbatch`: `batch` tuples separated by commas after the
        statement head, then `;`. Only the generator's state changes. */
    method GenerateInsertBatch(batch: u32) returns (stmt: string, ghost rows: seq<seq<Drawn>>)
      requires Valid()
      requires batch > 0 ==> Generable(tids)
      modifies generator.rng, generator.clock
      ensures Valid()
      ensures tablename == old(tablename) && tids == old(tids)
      ensures |rows| == batch && AllRowsFit(tids, rows)
      ensures stmt == InsertStatement(tablename, TupleTexts(tids, rows))
    {
      var cols := tids;
      var head := StatementHead(tablename);
      var n := batch;
      stmt := head;
      rows := [];
      ghost var tuples: seq<string> := [];
      while n > 0
        invariant 0 <= n <= batch && |rows| == batch - n
        invariant Valid() && cols == tids
        invariant AllRowsFit(cols, rows) && tuples == TupleTexts(cols, rows)
        invariant n > 0 ==> stmt == head + Terminated(tuples, ',')
        invariant n == 0 ==> stmt == head + Join(tuples, ',')
      {
        var tuple, row := GenerateOneValue();
        BatchSnoc(cols, rows, row);
        SnocAfter(head, tuples, tuple, ',');
        if n > 1 {
          stmt := stmt + tuple + ",";
        } else {
          stmt := stmt + tuple;
        }
        rows := rows + [row];
        tuples := tuples + [tuple];
        n := n - 1;
      }
      stmt := stmt + ";";
    }
  }
}
