/** The partial-update helper: the SET list of an UPDATE statement and the
    values its placeholders bind. */
module Sql {
  import opened Js
  import opened Errors
  import opened Clause

  /** A parameterized SQL fragment and the values bound to `$1`, `$2`, ... */
  datatype SqlClause = SqlClause(text: string, values: seq<Value>)

  /** `jsToSql[key] || key`: the translated column name when the map has a
      non-empty one for the key, the key itself otherwise. */
  function ColumnName(jsToSql: map<string, string>, key: string): string
  {
    if key in jsToSql && jsToSql[key] != "" then jsToSql[key] else key
  }

  /** The assignment `"column"=$n`. */
  function SetTemplate(column: string): Template
  {
    Template("\"" + column + "\"=", "")
  }

  /** The column each key of `data` assigns, in key order. */
  function SetColumns(data: seq<Entry>, jsToSql: map<string, string>): (cols: seq<string>)
    ensures |cols| == |data|
  {
    seq(|data|, i requires 0 <= i < |data| => ColumnName(jsToSql, data[i].0))
  }

  function SetTemplates(columns: seq<string>): (ts: seq<Template>)
    ensures |ts| == |columns|
  {
    seq(|columns|, i requires 0 <= i < |columns| => SetTemplate(columns[i]))
  }

  /** The spelled-out assignment for the key at 0-based position `i`. */
  function SetFragment(jsToSql: map<string, string>, key: string, i: nat): string
  {
    "\"" + ColumnName(jsToSql, key) + "\"=$" + NatToString(i + 1)
  }

  lemma SetFragmentsSpelledOut(data: seq<Entry>, jsToSql: map<string, string>)
    ensures Rendered(SetTemplates(SetColumns(data, jsToSql)), 1)
         == seq(|data|, i requires 0 <= i < |data| => SetFragment(jsToSql, data[i].0, i))
  {
    var ts := SetTemplates(SetColumns(data, jsToSql));
    forall i | 0 <= i < |data|
      ensures Rendered(ts, 1)[i] == SetFragment(jsToSql, data[i].0, i)
    {
      RenderedAt(ts, 1, i);
    }
  }

  /** sqlForPartialUpdate: one assignment per key of `data`, in key order,
      numbered from 1 and joined by ", ", with `data`'s values in the same
      order; an empty `data` is refused whatever the map. */
  function SqlForPartialUpdate(data: seq<Entry>, jsToSql: map<string, string>): (r: Result<SqlClause>)
    ensures r.Err? <==> |data| == 0
    ensures r.Err? ==> r.error == BadRequest("No data")
    ensures r.Ok? ==>
      && |r.value.values| == |data|
      && (forall i :: 0 <= i < |data| ==> r.value.values[i] == data[i].1)
      && r.value.text == Join(seq(|data|, i requires 0 <= i < |data| => SetFragment(jsToSql, data[i].0, i)), ", ")
  {
    if |data| == 0 then Err(BadRequest("No data"))
    else
      SetFragmentsSpelledOut(data, jsToSql);
      Ok(SqlClause(Join(Rendered(SetTemplates(SetColumns(data, jsToSql)), 1), ", "), Values(data)))
  }

  /** A key missing from the map, or mapped to the empty string, names its
      own column; any other key names the column the map gives it. */
  lemma ColumnNameFallback(jsToSql: map<string, string>, key: string)
    ensures key !in jsToSql || jsToSql[key] == "" ==> ColumnName(jsToSql, key) == key
    ensures key in jsToSql && jsToSql[key] != "" ==> ColumnName(jsToSql, key) == jsToSql[key]
  {
  }

  /** Assignments to distinct quote-free columns cannot be confused. */
  lemma {:induction false} SetLeadsDistinct(a: string, b: string)
    requires '"' !in a && '"' !in b
    ensures IsPrefix(Lead(SetTemplate(a)), Lead(SetTemplate(b))) ==> a == b
  {
    var la, lb := Lead(SetTemplate(a)), Lead(SetTemplate(b));
    assert la == ['"'] + a + ['"', '=', '$'];
    assert lb == ['"'] + b + ['"', '=', '$'];
    if IsPrefix(la, lb) {
      assert |a| <= |b|;
      assert lb[|a| + 1] == '"';
      assert |a| == |b|;
      forall k | 0 <= k < |a| ensures a[k] == b[k] {
        assert la[k + 1] == lb[k + 1];
      }
    }
  }

  lemma SetTemplatesUnambiguous(columns: seq<string>)
    requires forall i :: 0 <= i < |columns| ==> '"' !in columns[i]
    ensures Unambiguous(SetTemplates(columns), ", ")
  {
    var ts := SetTemplates(columns);
    forall i, j | 0 <= i < |ts| && 0 <= j < |ts| && ts[i] != ts[j]
      ensures !IsPrefix(Lead(ts[i]), Lead(ts[j]))
    {
      SetLeadsDistinct(columns[i], columns[j]);
    }
  }

  /** Reading the SET list back recovers, in key order, the assignment of
      each key's column with placeholders `$1`, `$2`, ..., provided no column
      contains a double quote. */
  lemma PartialUpdateDenotes(data: seq<Entry>, jsToSql: map<string, string>)
    requires |data| > 0
    requires forall i :: 0 <= i < |data| ==> '"' !in ColumnName(jsToSql, data[i].0)
    ensures var ts := SetTemplates(SetColumns(data, jsToSql));
      ParseClause(SqlForPartialUpdate(data, jsToSql).value.text, ts, ", ") == Some(Numbered(ts, 1))
  {
    var cols := SetColumns(data, jsToSql);
    var ts := SetTemplates(cols);
    SetTemplatesUnambiguous(cols);
    SetFragmentsSpelledOut(data, jsToSql);
    var text := Join(Rendered(ts, 1), ", ");
    assert SqlForPartialUpdate(data, jsToSql).value.text == text;
    assert forall i :: 0 <= i < |ts| ==> ts[i] in ts;
    ParseRendered(ts, 1, ts, ", ");
  }

  /** The k-th assignment read back from the SET list targets the column of
      the k-th key and uses `$k`, and `$k` binds that key's value. */
  lemma PartialUpdatePlaceholderBindsValue(data: seq<Entry>, jsToSql: map<string, string>, i: nat)
    requires i < |data|
    ensures var ts := SetTemplates(SetColumns(data, jsToSql));
      var c := SqlForPartialUpdate(data, jsToSql).value;
      && Numbered(ts, 1)[i] == (SetTemplate(ColumnName(jsToSql, data[i].0)), i + 1)
      && c.values[Numbered(ts, 1)[i].1 - 1] == data[i].1
  {
    RenderedAt(SetTemplates(SetColumns(data, jsToSql)), 1, i);
  }

  /** The documented example: `handle` and `name` are not in the company
      map, so they pass through as their own column names. */
  lemma PartialUpdateExample()
    ensures SqlForPartialUpdate(
              [("handle", VStr("acme")), ("name", VStr("The Royal Acme Corporation"))],
              map["numEmployees" := "num_employees", "logoUrl" := "logo_url"])
         == Ok(SqlClause("\"handle\"=$1" + ", " + "\"name\"=$2",
                         [VStr("acme"), VStr("The Royal Acme Corporation")]))
  {
    var m := map["numEmployees" := "num_employees", "logoUrl" := "logo_url"];
    var data := [("handle", VStr("acme")), ("name", VStr("The Royal Acme Corporation"))];
    ExampleFragments(m, data);
    var parts := seq(|data|, i requires 0 <= i < |data| => SetFragment(m, data[i].0, i));
    assert Join(parts, ", ") == "\"handle\"=$1" + ", " + "\"name\"=$2";
    var r := SqlForPartialUpdate(data, m);
    assert r.value.values == [VStr("acme"), VStr("The Royal Acme Corporation")];
  }

  lemma ExampleFragments(m: map<string, string>, data: seq<Entry>)
    requires m == map["numEmployees" := "num_employees", "logoUrl" := "logo_url"]
    requires data == [("handle", VStr("acme")), ("name", VStr("The Royal Acme Corporation"))]
    ensures seq(|data|, i requires 0 <= i < |data| => SetFragment(m, data[i].0, i))
         == ["\"handle\"=$1", "\"name\"=$2"]
  {
    assert NatToString(1) == "1" && NatToString(2) == "2";
    assert ColumnName(m, "handle") == "handle";
    assert ColumnName(m, "name") == "name";
    assert SetFragment(m, "handle", 0) == "\"handle\"=$1";
    assert SetFragment(m, "name", 1) == "\"name\"=$2";
  }
}
