/** Reading a generated INSERT statement back: the statement head, then the
    value tuples, each split into its fields. A comma separates two items
    only at nesting depth zero, so the commas inside a tuple do not split
    the batch, and the commas inside a JSON object do not split the tuple.
    This is the partner of the batch builder: whatever it writes comes back
    as exactly the tuples and fields it was built from. */
module SqlText {
  import opened Wrappers
  import opened Strings
  import opened JsonText
  import opened TypedGenerator
  import opened Schema

  // ---------------------------------------------------------------------------
  // Splitting at top-level commas

  /** Scans `s` left to right: `depth` counts the `open` characters not yet
      closed and `cur` is the item read so far. At depth zero a comma ends
      the item. */
  function Scan(s: string, open: char, close: char, depth: nat, cur: string): seq<string>
    decreases |s|
  {
    if s == [] then [cur]
    else if s[0] == ',' && depth == 0 then [cur] + Scan(s[1..], open, close, 0, "")
    else if s[0] == open then Scan(s[1..], open, close, depth + 1, cur + [open])
    else if s[0] == close then Scan(s[1..], open, close, if depth > 0 then depth - 1 else 0, cur + [close])
    else Scan(s[1..], open, close, depth, cur + [s[0]])
  }

  function Split(s: string, open: char, close: char): seq<string>
  {
    Scan(s, open, close, 0, "")
  }

  /** Bracket characters that the scanner can tell apart from each other and from commas. */
  predicate Brackets(open: char, close: char)
  {
    open != close && open != ',' && close != ','
  }

  /** `open` + something without brackets + `close`. */
  predicate Enclosed(f: string, open: char, close: char)
  {
    |f| >= 2 && f[0] == open && f[|f| - 1] == close && Avoids(f[1..|f| - 1], {open, close})
  }

  /** An item the scanner reads whole: no comma or bracket at all, or one
      bracketed group with no brackets inside. */
  predicate Atomic(f: string, open: char, close: char)
  {
    Avoids(f, {',', open, close}) || Enclosed(f, open, close)
  }

  /** Text without brackets (and, at depth zero, without commas) is read as is. */
  lemma {:induction false} ScanLiteral(f: string, rest: string, open: char, close: char, depth: nat, cur: string)
    requires Avoids(f, {open, close})
    requires depth > 0 || Avoids(f, {','})
    ensures Scan(f + rest, open, close, depth, cur) == Scan(rest, open, close, depth, cur + f)
    decreases |f|
  {
    if f == [] {
      assert f + rest == rest;
      assert cur + f == cur;
    } else {
      var s := f + rest;
      assert s[0] == f[0] && s[0] !in {open, close};
      assert depth == 0 ==> s[0] !in {','};
      assert s[1..] == f[1..] + rest;
      ScanLiteral(f[1..], rest, open, close, depth, cur + [f[0]]);
      assert cur + [f[0]] + f[1..] == cur + f;
    }
  }

  /** An atomic item at depth zero is read whole and leaves the depth at zero. */
  lemma ScanAtomic(f: string, rest: string, open: char, close: char, cur: string)
    requires Brackets(open, close) && Atomic(f, open, close)
    ensures Scan(f + rest, open, close, 0, cur) == Scan(rest, open, close, 0, cur + f)
  {
    if Avoids(f, {',', open, close}) {
      assert Avoids(f, {open, close}) && Avoids(f, {','}) by {
        forall i | 0 <= i < |f|
          ensures f[i] !in {open, close} && f[i] !in {','}
        {
          assert f[i] !in {',', open, close};
        }
      }
      ScanLiteral(f, rest, open, close, 0, cur);
    } else {
      var b := f[1..|f| - 1];
      var tail := [close] + rest;
      assert f + rest == [open] + (b + tail);
      assert Scan(f + rest, open, close, 0, cur) == Scan(b + tail, open, close, 1, cur + [open]);
      ScanLiteral(b, tail, open, close, 1, cur + [open]);
      assert tail[0] == close && tail[1..] == rest;
      assert Scan(tail, open, close, 1, cur + [open] + b) == Scan(rest, open, close, 0, cur + [open] + b + [close]);
      assert cur + [open] + b + [close] == cur + f;
    }
  }

  /** Scanning a comma join of atomic items gives the items back, the first
      one behind whatever was already read. */
  lemma {:induction false} ScanJoin(items: seq<string>, open: char, close: char, cur: string)
    requires Brackets(open, close) && items != []
    requires forall i :: 0 <= i < |items| ==> Atomic(items[i], open, close)
    ensures Scan(Join(items, ','), open, close, 0, cur) == [cur + items[0]] + items[1..]
    decreases |items|
  {
    var x := items[0];
    if |items| == 1 {
      assert Join(items, ',') == x + "";
      ScanAtomic(x, "", open, close, cur);
    } else {
      var xs := items[1..];
      assert items == [x] + xs;
      JoinCons(x, xs, ',');
      assert Join(items, ',') == x + ([','] + Join(xs, ','));
      ScanAtomic(x, [','] + Join(xs, ','), open, close, cur);
      assert ([','] + Join(xs, ','))[1..] == Join(xs, ',');
      ScanJoin(xs, open, close, "");
      assert "" + xs[0] == xs[0] && [xs[0]] + xs[1..] == xs;
    }
  }

  /** `Split` inverts a comma join of atomic items. */
  lemma SplitJoin(items: seq<string>, open: char, close: char)
    requires Brackets(open, close) && items != []
    requires forall i :: 0 <= i < |items| ==> Atomic(items[i], open, close)
    ensures Split(Join(items, ','), open, close) == items
  {
    ScanJoin(items, open, close, "");
    assert "" + items[0] == items[0];
    assert [items[0]] + items[1..] == items;
  }

  // ---------------------------------------------------------------------------
  // Fields

  /** A field's value: the text between single quotes for a quoted field,
      otherwise the field itself. */
  function FieldValue(f: string): string
  {
    if IsQuotedField(f) then f[1..|f| - 1] else f
  }

  predicate IsQuotedField(f: string)
  {
    |f| >= 2 && f[0] == '\'' && f[|f| - 1] == '\''
  }

  /** The rendered value of every category but JSON holds no comma and no
      brace; a JSON object is one braced group with no brace inside. */
  lemma RenderShape(attr: AttrInfo, d: Drawn)
    requires Fits(attr, d)
    ensures d.DrawnJson? ==> Enclosed(Render(d), '{', '}')
    ensures !d.DrawnJson? ==> Avoids(Render(d), {',', '{', '}'})
  {
    var bad := {',', '{', '}'};
    match d
    case DrawnText(chars) => CharsetAvoids(chars, bad);
    case DrawnInt(n) =>
      assert AllDigits(DecimalText(n));
    case DrawnFloat(a) =>
    case DrawnBool(b) =>
    case DrawnTime(stamp) => TimestampAvoids(stamp, bad);
    case DrawnJson(keys) =>
      var body := Join(MemberTexts(Indexed(keys)), ',');
      MembersAvoid(keys, {'{', '}'});
      var r := JsonObject(keys);
      assert r == "{" + body + "}";
      assert r[1..|r| - 1] == body;
  }

  /** Every field is read whole by the tuple splitter. */
  lemma FieldAtomic(attr: AttrInfo, d: Drawn)
    requires Fits(attr, d)
    ensures Atomic(FieldText(attr, d), '{', '}')
  {
    RenderShape(attr, d);
    var r := Render(d);
    if Quoted(attr.typeInfo) {
      var f := QuoteVal('\'', r);
      forall i | 0 <= i < |f|
        ensures f[i] !in {',', '{', '}'}
      {
        if 0 < i < |f| - 1 {
          assert f[i] == r[i - 1];
        }
      }
    }
  }

  /** Fields hold no parenthesis, so a tuple is one parenthesized group. */
  lemma FieldAvoidsParens(attr: AttrInfo, d: Drawn)
    requires Fits(attr, d)
    ensures Avoids(FieldText(attr, d), {'(', ')'})
  {
    RenderAvoidsPunct(attr, d);
    var r := Render(d);
    var f := FieldText(attr, d);
    forall i | 0 <= i < |f|
      ensures f[i] !in {'(', ')'}
    {
      if Quoted(attr.typeInfo) {
        if 0 < i < |f| - 1 {
          assert f[i] == r[i - 1];
        }
      } else {
        assert f[i] == r[i] && r[i] !in SQL_PUNCT;
      }
    }
  }

  /** A field is quoted exactly when its column is a Text or Time column,
      and unquoting it gives the synthesizer's text back. */
  lemma FieldRoundTrip(attr: AttrInfo, d: Drawn)
    requires Fits(attr, d)
    ensures IsQuotedField(FieldText(attr, d)) <==> Quoted(attr.typeInfo)
    ensures FieldValue(FieldText(attr, d)) == Render(d)
  {
    var r := Render(d);
    if !Quoted(attr.typeInfo) && |r| > 0 {
      RenderAvoidsPunct(attr, d);
      assert r[0] !in SQL_PUNCT;
    }
  }

  // ---------------------------------------------------------------------------
  // Tuples and statements

  /** The fields of a tuple text: the parenthesized part split at top-level commas. */
  function SplitTuple(t: string): Option<seq<string>>
  {
    if |t| >= 2 && t[0] == '(' && t[|t| - 1] == ')' then Some(Split(t[1..|t| - 1], '{', '}'))
    else None
  }

  /** A tuple comes back as its fields, one per column in column order; the
      `(` written for a table without columns is not a tuple at all. */
  lemma TupleRoundTrip(tids: seq<AttrInfo>, row: seq<Drawn>)
    requires RowFits(tids, row)
    ensures tids != [] ==> SplitTuple(TupleText(FieldTexts(tids, row))) == Some(FieldTexts(tids, row))
    ensures tids == [] ==> SplitTuple(TupleText(FieldTexts(tids, row))) == None
  {
    var fields := FieldTexts(tids, row);
    if tids != [] {
      forall j | 0 <= j < |fields|
        ensures Atomic(fields[j], '{', '}')
      {
        FieldAtomic(tids[j], row[j]);
      }
      SplitJoin(fields, '{', '}');
      var t := TupleText(fields);
      assert t[1..|t| - 1] == Join(fields, ',');
    }
  }

  /** A tuple of a table with columns is one parenthesized group with no
      parenthesis inside. */
  lemma TupleEnclosed(tids: seq<AttrInfo>, row: seq<Drawn>)
    requires RowFits(tids, row) && tids != []
    ensures Enclosed(TupleText(FieldTexts(tids, row)), '(', ')')
  {
    var fields := FieldTexts(tids, row);
    forall j | 0 <= j < |fields|
      ensures Avoids(fields[j], {'(', ')'})
    {
      FieldAvoidsParens(tids[j], row[j]);
    }
    AvoidsJoin(fields, ',', {'(', ')'});
    var t := TupleText(fields);
    assert t[1..|t| - 1] == Join(fields, ',');
  }

  /** The tuple texts of a statement for table `tablename`: what follows the
      head, before the final `;`, split at top-level commas. */
  function ReadStatement(tablename: string, stmt: string): Option<seq<string>>
  {
    var head := StatementHead(tablename);
    if |stmt| >= |head| + 1 && stmt[..|head|] == head && stmt[|stmt| - 1] == ';' then
      var body := stmt[|head|..|stmt| - 1];
      if body == [] then Some([]) else Some(Split(body, '(', ')'))
    else None
  }

  /** The statement is the head, the joined tuples and `;`. */
  lemma StatementLayout(tablename: string, tuples: seq<string>)
    ensures var stmt, head := InsertStatement(tablename, tuples), StatementHead(tablename);
      && |stmt| >= |head| + 1 && stmt[..|head|] == head && stmt[|stmt| - 1] == ';'
      && stmt[|head|..|stmt| - 1] == Join(tuples, ',')
  {
    var head, body := StatementHead(tablename), Join(tuples, ',');
    var stmt := InsertStatement(tablename, tuples);
    assert stmt == head + body + ";";
  }

  /** Every tuple of a table with columns is one parenthesized unit. */
  lemma TuplesAtomic(tids: seq<AttrInfo>, rows: seq<seq<Drawn>>)
    requires AllRowsFit(tids, rows) && tids != []
    ensures forall i :: 0 <= i < |rows| ==> Atomic(TupleTexts(tids, rows)[i], '(', ')')
    ensures rows != [] ==> |Join(TupleTexts(tids, rows), ',')| > 0
  {
    var tuples := TupleTexts(tids, rows);
    forall i | 0 <= i < |tuples|
      ensures Atomic(tuples[i], '(', ')')
    {
      TupleEnclosed(tids, rows[i]);
    }
    if rows != [] {
      TupleEnclosed(tids, rows[|rows| - 1]);
      assert |Join(tuples, ',')| >= |tuples[|tuples| - 1]|;
    }
  }

  /** A statement comes back as its tuples, one per row in order. */
  lemma StatementRoundTrip(tablename: string, tids: seq<AttrInfo>, rows: seq<seq<Drawn>>)
    requires AllRowsFit(tids, rows) && tids != []
    ensures ReadStatement(tablename, InsertStatement(tablename, TupleTexts(tids, rows))) == Some(TupleTexts(tids, rows))
  {
    var tuples := TupleTexts(tids, rows);
    StatementLayout(tablename, tuples);
    TuplesAtomic(tids, rows);
    if rows != [] {
      SplitJoin(tuples, '(', ')');
    }
  }

  /** A batch read back: `|rows|` tuples, the i-th holding the fields of
      row i, one per column in column order. */
  lemma BatchReadBack(tablename: string, tids: seq<AttrInfo>, rows: seq<seq<Drawn>>)
    requires AllRowsFit(tids, rows) && tids != []
    ensures var r := ReadStatement(tablename, InsertStatement(tablename, TupleTexts(tids, rows)));
      && r.Some? && |r.value| == |rows|
      && forall i :: 0 <= i < |rows| ==> SplitTuple(r.value[i]) == Some(FieldTexts(tids, rows[i]))
  {
    StatementRoundTrip(tablename, tids, rows);
    forall i | 0 <= i < |rows|
      ensures SplitTuple(TupleTexts(tids, rows)[i]) == Some(FieldTexts(tids, rows[i]))
    {
      TupleRoundTrip(tids, rows[i]);
    }
  }
}
