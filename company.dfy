/** The company model: the search WHERE builder, the parameters of the
    partial UPDATE, and the duplicate / not-found rules of create, get,
    update, remove and findWhere over the companies table. */
module Company {
  import opened Js
  import opened Errors
  import opened Clause
  import opened Sql

  const NoData := "No data"
  const RangeMessage := "Min employees cannot exceed max employees."
  const InvalidCriteria := "Invalid search criteria"

  /** The allow-list of search filters. */
  const CompanyFilters: seq<string> := ["minEmployees", "maxEmployees", "nameLike"]

  const NameLikeTemplate := Template("handle ILIKE '%'|| ", " ||'%'")
  const MinEmployeesTemplate := Template("num_employees >= ", "")
  const MaxEmployeesTemplate := Template("num_employees <= ", "")
  const CompanyTemplates: seq<Template> := [NameLikeTemplate, MinEmployeesTemplate, MaxEmployeesTemplate]

  /** The predicate template of an allowed filter. */
  function FilterTemplate(filter: string): Template
    requires filter in CompanyFilters
  {
    if filter == "nameLike" then NameLikeTemplate
    else if filter == "minEmployees" then MinEmployeesTemplate
    else MaxEmployeesTemplate
  }

  /** The predicate of an allowed filter at 0-based position `i`, spelled out. */
  function CompanyFragment(filter: string, i: nat): string
  {
    var n := NatToString(i + 1);
    if filter == "nameLike" then "handle ILIKE '%'|| $" + n + " ||'%'"
    else if filter == "minEmployees" then "num_employees >= $" + n
    else "num_employees <= $" + n
  }

  /** `criteria.minEmployees > criteria.maxEmployees`, with JavaScript's `>`. */
  predicate MinExceedsMax(criteria: seq<Entry>)
  {
    GreaterThan(Get(criteria, "minEmployees"), Get(criteria, "maxEmployees"))
  }

  predicate AllAllowed(criteria: seq<Entry>)
  {
    forall i :: 0 <= i < |criteria| ==> criteria[i].0 in CompanyFilters
  }

  function WhereTemplates(criteria: seq<Entry>): (ts: seq<Template>)
    requires AllAllowed(criteria)
    ensures |ts| == |criteria|
  {
    seq(|criteria|, i requires 0 <= i < |criteria| => FilterTemplate(criteria[i].0))
  }

  lemma WhereFragmentsSpelledOut(criteria: seq<Entry>)
    requires AllAllowed(criteria)
    ensures Rendered(WhereTemplates(criteria), 1)
         == seq(|criteria|, i requires 0 <= i < |criteria| => CompanyFragment(criteria[i].0, i))
  {
    var ts := WhereTemplates(criteria);
    forall i | 0 <= i < |criteria|
      ensures Rendered(ts, 1)[i] == CompanyFragment(criteria[i].0, i)
    {
      RenderedAt(ts, 1, i);
    }
  }

  /** Company.sqlClauseForFindWhere: refuses empty criteria, then an
      inverted employee range, then any key outside the allow-list;
      otherwise one predicate per key, in key order, joined by " AND ",
      bound to the criteria's own values in the same order. */
  function SqlClauseForFindWhere(criteria: seq<Entry>): (r: Result<SqlClause>)
    ensures |criteria| == 0 ==> r == Err(BadRequest(NoData))
    ensures |criteria| > 0 && MinExceedsMax(criteria) ==> r == Err(BadRequest(RangeMessage))
    ensures |criteria| > 0 && !MinExceedsMax(criteria) && !AllAllowed(criteria) ==>
      r == Err(BadRequest(InvalidCriteria))
    ensures r.Ok? <==> |criteria| > 0 && !MinExceedsMax(criteria) && AllAllowed(criteria)
    ensures r.Ok? ==>
      && |r.value.values| == |criteria|
      && (forall i :: 0 <= i < |criteria| ==> r.value.values[i] == criteria[i].1)
      && r.value.text == Join(seq(|criteria|, i requires 0 <= i < |criteria| => CompanyFragment(criteria[i].0, i)), " AND ")
  {
    if |criteria| == 0 then Err(BadRequest(NoData))
    else if MinExceedsMax(criteria) then Err(BadRequest(RangeMessage))
    else if !AllAllowed(criteria) then Err(BadRequest(InvalidCriteria))
    else
      WhereFragmentsSpelledOut(criteria);
      Ok(SqlClause(Join(Rendered(WhereTemplates(criteria), 1), " AND "), Values(criteria)))
  }

  /** With both bounds given as integers, an inverted range is refused
      whatever the other keys are, and a proper range never is. */
  lemma RangeCheckOnIntegers(criteria: seq<Entry>, lo: int, hi: int)
    requires |criteria| > 0
    requires Get(criteria, "minEmployees") == Some(VInt(lo))
    requires Get(criteria, "maxEmployees") == Some(VInt(hi))
    ensures lo > hi ==> SqlClauseForFindWhere(criteria) == Err(BadRequest(RangeMessage))
    ensures lo <= hi ==> SqlClauseForFindWhere(criteria) != Err(BadRequest(RangeMessage))
  {
    GreaterThanFacts(Some(VInt(lo)), Some(VInt(hi)));
    assert MinExceedsMax(criteria) <==> lo > hi;
    var r := SqlClauseForFindWhere(criteria);
    if lo <= hi {
      assert r.Ok? || r == Err(BadRequest(InvalidCriteria));
    }
  }

  /** With only one bound (or none) present the range check never fires. */
  lemma RangeCheckNeedsBoth(criteria: seq<Entry>)
    requires Get(criteria, "minEmployees").None? || Get(criteria, "maxEmployees").None?
    ensures SqlClauseForFindWhere(criteria) != Err(BadRequest(RangeMessage))
  {
  }

  /** The outcome does not depend on the order of the keys: the same
      entries in another order are refused with the same error, or accepted
      as well. */
  lemma WhereOutcomeIgnoresKeyOrder(c1: seq<Entry>, c2: seq<Entry>)
    requires DistinctKeys(c1) && DistinctKeys(c2)
    requires multiset(c1) == multiset(c2)
    ensures SqlClauseForFindWhere(c1).Ok? <==> SqlClauseForFindWhere(c2).Ok?
    ensures SqlClauseForFindWhere(c1).Err? ==> SqlClauseForFindWhere(c2) == SqlClauseForFindWhere(c1)
  {
    GetReordered(c1, c2, "minEmployees");
    GetReordered(c1, c2, "maxEmployees");
    assert |c1| == |multiset(c1)| == |multiset(c2)| == |c2|;
    if !AllAllowed(c1) {
      var i :| 0 <= i < |c1| && c1[i].0 !in CompanyFilters;
      assert c1[i] in multiset(c2);
    }
    if !AllAllowed(c2) {
      var i :| 0 <= i < |c2| && c2[i].0 !in CompanyFilters;
      assert c2[i] in multiset(c1);
    }
  }

  lemma CompanyTemplatesUnambiguous()
    ensures Unambiguous(CompanyTemplates, " AND ")
  {
    LeadsDiffer(NameLikeTemplate, MinEmployeesTemplate, 0);
    LeadsDiffer(NameLikeTemplate, MaxEmployeesTemplate, 0);
    LeadsDiffer(MinEmployeesTemplate, MaxEmployeesTemplate, 14);
  }

  /** Reading the WHERE clause back recovers, in key order, the template of
      each key's filter with placeholders `$1`, `$2`, ...; and the three
      filters have three different templates (FilterTemplateInjective), so
      the filter is recovered too. */
  lemma WhereDenotes(criteria: seq<Entry>)
    requires SqlClauseForFindWhere(criteria).Ok?
    ensures ParseClause(SqlClauseForFindWhere(criteria).value.text, CompanyTemplates, " AND ")
         == Some(Numbered(WhereTemplates(criteria), 1))
  {
    var ts := WhereTemplates(criteria);
    var text := Join(Rendered(ts, 1), " AND ");
    assert SqlClauseForFindWhere(criteria).value.text == text;
    assert forall i :: 0 <= i < |ts| ==> ts[i] in CompanyTemplates;
    CompanyTemplatesUnambiguous();
    ParseRendered(ts, 1, CompanyTemplates, " AND ");
  }

  lemma FilterTemplateInjective(f: string, g: string)
    requires f in CompanyFilters && g in CompanyFilters
    ensures FilterTemplate(f) == FilterTemplate(g) ==> f == g
  {
  }

  /** The predicate read back at position k (1-based) is that of the k-th
      key, uses `$k`, and `$k` binds the k-th key's value. */
  lemma WherePlaceholderBindsValue(criteria: seq<Entry>, i: nat)
    requires SqlClauseForFindWhere(criteria).Ok? && i < |criteria|
    ensures var c := SqlClauseForFindWhere(criteria).value;
      && Numbered(WhereTemplates(criteria), 1)[i] == (FilterTemplate(criteria[i].0), i + 1)
      && c.values[Numbered(WhereTemplates(criteria), 1)[i].1 - 1] == criteria[i].1
  {
    RenderedAt(WhereTemplates(criteria), 1, i);
  }

  /** A single lower bound, as in models/company.test.js. */
  lemma FindWhereMinOnlyExample()
    ensures SqlClauseForFindWhere([("minEmployees", VInt(1))])
         == Ok(SqlClause("num_employees >= $1", [VInt(1)]))
  {
    var one := [("minEmployees", VInt(1))];
    assert Get(one, "maxEmployees") == None;
    GreaterThanFacts(Get(one, "minEmployees"), None);
    assert CompanyFragment("minEmployees", 0) == "num_employees >= $1";
    var r := SqlClauseForFindWhere(one);
    assert r.value.text == "num_employees >= $1";
    assert r.value.values == [VInt(1)];
  }

  /** All three filters, as in models/company.test.js. */
  lemma FindWhereAllFiltersExample()
    ensures SqlClauseForFindWhere([("minEmployees", VInt(1)), ("maxEmployees", VInt(3)), ("nameLike", VStr("2"))])
         == Ok(SqlClause("num_employees >= $1" + " AND " + ("num_employees <= $2" + " AND " + "handle ILIKE '%'|| $3 ||'%'"),
                         [VInt(1), VInt(3), VStr("2")]))
  {
    var three := [("minEmployees", VInt(1)), ("maxEmployees", VInt(3)), ("nameLike", VStr("2"))];
    AllFiltersText(three);
    AllFiltersValues(three);
  }

  lemma AllFiltersText(c: seq<Entry>)
    requires c == [("minEmployees", VInt(1)), ("maxEmployees", VInt(3)), ("nameLike", VStr("2"))]
    ensures SqlClauseForFindWhere(c).Ok?
    ensures SqlClauseForFindWhere(c).value.text
         == "num_employees >= $1" + " AND " + ("num_employees <= $2" + " AND " + "handle ILIKE '%'|| $3 ||'%'")
  {
    AllFiltersAccepted(c);
    AllFiltersFragments(c);
    var parts := seq(|c|, i requires 0 <= i < |c| => CompanyFragment(c[i].0, i));
    assert Join(parts[2..], " AND ") == "handle ILIKE '%'|| $3 ||'%'";
    assert parts[1..][1..] == parts[2..];
    assert Join(parts[1..], " AND ") == "num_employees <= $2" + " AND " + "handle ILIKE '%'|| $3 ||'%'";
  }

  lemma AllFiltersValues(c: seq<Entry>)
    requires c == [("minEmployees", VInt(1)), ("maxEmployees", VInt(3)), ("nameLike", VStr("2"))]
    ensures SqlClauseForFindWhere(c).Ok?
    ensures SqlClauseForFindWhere(c).value.values == [VInt(1), VInt(3), VStr("2")]
  {
    AllFiltersAccepted(c);
    var vs := SqlClauseForFindWhere(c).value.values;
    assert vs == [VInt(1), VInt(3), VStr("2")];
  }

  lemma AllFiltersAccepted(c: seq<Entry>)
    requires c == [("minEmployees", VInt(1)), ("maxEmployees", VInt(3)), ("nameLike", VStr("2"))]
    ensures !MinExceedsMax(c) && AllAllowed(c)
  {
    assert Get(c, "minEmployees") == Some(VInt(1));
    assert Get(c, "maxEmployees") == Some(VInt(3));
    GreaterThanFacts(Some(VInt(1)), Some(VInt(3)));
    assert c[0].0 == CompanyFilters[0];
    assert c[1].0 == CompanyFilters[1];
    assert c[2].0 == CompanyFilters[2];
  }

  lemma AllFiltersFragments(c: seq<Entry>)
    requires c == [("minEmployees", VInt(1)), ("maxEmployees", VInt(3)), ("nameLike", VStr("2"))]
    ensures seq(|c|, i requires 0 <= i < |c| => CompanyFragment(c[i].0, i))
         == ["num_employees >= $1", "num_employees <= $2", "handle ILIKE '%'|| $3 ||'%'"]
  {
    assert NatToString(1) == "1" && NatToString(2) == "2" && NatToString(3) == "3";
    assert CompanyFragment("minEmployees", 0) == "num_employees >= $1";
    assert CompanyFragment("maxEmployees", 1) == "num_employees <= $2";
    assert CompanyFragment("nameLike", 2) == "handle ILIKE '%'|| $3 ||'%'";
  }

  /** The three refusals, as in models/company.test.js. */
  lemma FindWhereRefusalExamples()
    ensures SqlClauseForFindWhere([]) == Err(BadRequest(NoData))
    ensures SqlClauseForFindWhere([("maxEmployees", VInt(10)), ("minEmployees", VInt(30))])
         == Err(BadRequest(RangeMessage))
    ensures SqlClauseForFindWhere([("description", VStr("Chill family-like atmosphere"))])
         == Err(BadRequest(InvalidCriteria))
  {
  }

  // ---- Company.update: the statement's parameters ----

  /** The JS-to-SQL column map the update passes to the helper. */
  const CompanyColumnMap: map<string, string> := map["numEmployees" := "num_employees", "logoUrl" := "logo_url"]

  /** The SET list, the WHERE placeholder for the handle, and the bound
      parameters of `UPDATE companies SET ... WHERE handle = $n`. */
  datatype UpdateQuery = UpdateQuery(setCols: string, handleVarIdx: string, params: seq<Value>)

  function UpdateQueryFor(handle: string, data: seq<Entry>): (r: Result<UpdateQuery>)
    ensures r.Err? <==> |data| == 0
    ensures r.Err? ==> r.error == BadRequest(NoData)
    ensures r.Ok? ==>
      && r.value.setCols == SqlForPartialUpdate(data, CompanyColumnMap).value.text
      && |r.value.params| == |data| + 1
      && (forall i :: 0 <= i < |data| ==> r.value.params[i] == data[i].1)
      && r.value.params[|data|] == VStr(handle)
  {
    match SqlForPartialUpdate(data, CompanyColumnMap)
    case Err(e) => Err(e)
    case Ok(c) => Ok(UpdateQuery(c.text, "$" + NatToString(|c.values| + 1), c.values + [VStr(handle)]))
  }

  /** The WHERE placeholder is one past the last SET placeholder: it differs
      from every `$1 .. $n` of the SET list and is the number of the last
      parameter, which is the handle. */
  lemma HandlePlaceholderIsLast(handle: string, data: seq<Entry>)
    requires |data| > 0
    ensures var q := UpdateQueryFor(handle, data).value;
      && |q.handleVarIdx| > 1 && q.handleVarIdx[0] == '$'
      && ParseNat(q.handleVarIdx[1..]) == Some(|q.params|)
      && q.params[|q.params| - 1] == VStr(handle)
      && (forall k :: 1 <= k <= |data| ==> "$" + NatToString(k) != q.handleVarIdx)
  {
    var q := UpdateQueryFor(handle, data).value;
    var n := |data| + 1;
    assert q.handleVarIdx == "$" + NatToString(n);
    assert q.handleVarIdx[1..] == NatToString(n);
    NatToStringRoundTrip(n);
    forall k | 1 <= k <= |data| ensures "$" + NatToString(k) != q.handleVarIdx {
      if "$" + NatToString(k) == q.handleVarIdx {
        assert ("$" + NatToString(k))[1..] == NatToString(k);
        NatToStringInjective(k, n);
      }
    }
  }

  // ---- The companies table ----

  /** A row of the companies table, with its external field names. */
  datatype CompanyRow = CompanyRow(handle: string, name: Value, description: Value, numEmployees: Value, logoUrl: Value)

  /** The fields the update documents as changeable. */
  const UpdatableFields: seq<string> := ["name", "description", "numEmployees", "logoUrl"]

  /** What the database does with one assignment `"column"=$i`. */
  function AssignColumn(row: CompanyRow, column: string, v: Value): CompanyRow
  {
    if column == "name" then row.(name := v)
    else if column == "description" then row.(description := v)
    else if column == "num_employees" then row.(numEmployees := v)
    else if column == "logo_url" then row.(logoUrl := v)
    else row
  }

  /** The SET list executed left to right, column i receiving `params[i]`. */
  function ExecuteSet(row: CompanyRow, columns: seq<string>, params: seq<Value>): CompanyRow
    requires |columns| <= |params|
    decreases |columns|
  {
    if columns == [] then row
    else ExecuteSet(AssignColumn(row, columns[0], params[0]), columns[1..], params[1..])
  }

  function ValueOr(v: Option<Value>, default: Value): Value
  {
    if v.Some? then v.value else default
  }

  /** A partial update by field name: each field takes the value `data`
      gives it and otherwise keeps its own; the handle never changes. */
  function Patched(row: CompanyRow, data: seq<Entry>): CompanyRow
  {
    CompanyRow(row.handle,
               ValueOr(Get(data, "name"), row.name),
               ValueOr(Get(data, "description"), row.description),
               ValueOr(Get(data, "numEmployees"), row.numEmployees),
               ValueOr(Get(data, "logoUrl"), row.logoUrl))
  }

  lemma {:induction false} GetMissing(o: seq<Entry>, k: string)
    requires forall i :: 0 <= i < |o| ==> o[i].0 != k
    ensures Get(o, k) == None
    decreases |o|
  {
    if o != [] {
      GetMissing(o[1..], k);
    }
  }

  /** Translating the field names through the company map and executing the
      SET list with the caller's values is the partial update by field name. */
  lemma {:induction false} ExecuteSetPatches(row: CompanyRow, data: seq<Entry>)
    requires DistinctKeys(data)
    requires forall i :: 0 <= i < |data| ==> data[i].0 in UpdatableFields
    ensures ExecuteSet(row, SetColumns(data, CompanyColumnMap), Values(data)) == Patched(row, data)
    decreases |data|
  {
    if data != [] {
      var (k, v) := data[0];
      var rest := data[1..];
      assert DistinctKeys(rest) by {
        forall i, j | 0 <= i < j < |rest| ensures rest[i].0 != rest[j].0 {
          assert rest[i] == data[i + 1] && rest[j] == data[j + 1];
        }
      }
      assert SetColumns(data, CompanyColumnMap)[1..] == SetColumns(rest, CompanyColumnMap);
      assert Values(data)[1..] == Values(rest);
      var first := AssignColumn(row, ColumnName(CompanyColumnMap, k), v);
      ExecuteSetPatches(first, rest);
      assert forall i :: 0 <= i < |rest| ==> rest[i].0 != k by {
        forall i | 0 <= i < |rest| ensures rest[i].0 != k {
          assert rest[i] == data[i + 1];
        }
      }
      GetMissing(rest, k);
    }
  }

  class CompanyTable {
    /** The rows of the companies table, by handle. */
    var rows: map<string, CompanyRow>

    ghost predicate Valid()
      reads this
    {
      forall h :: h in rows ==> rows[h].handle == h
    }

    constructor ()
      ensures Valid() && rows == map[]
    {
      rows := map[];
    }

    /** Company.create: a handle already in the table is refused and the
        table is left alone; otherwise the row is inserted and returned. */
    method Create(c: CompanyRow) returns (r: Result<CompanyRow>)
      requires Valid()
      modifies this
      ensures Valid()
      ensures old(c.handle in rows) ==>
        r == Err(BadRequest("Duplicate company: " + c.handle)) && rows == old(rows)
      ensures old(c.handle !in rows) ==> r == Ok(c) && rows == old(rows)[c.handle := c]
    {
      if c.handle in rows {
        return Err(BadRequest("Duplicate company: " + c.handle));
      }
      rows := rows[c.handle := c];
      r := Ok(c);
    }

    /** Company.get: the row with that handle, or NotFound. */
    method Get(handle: string) returns (r: Result<CompanyRow>)
      requires Valid()
      ensures r.Ok? <==> handle in rows
      ensures r.Ok? ==> r.value == rows[handle] && r.value.handle == handle
      ensures r.Err? ==> r.error == NotFound("No company: " + handle)
    {
      if handle !in rows {
        return Err(NotFound("No company: " + handle));
      }
      r := Ok(rows[handle]);
    }

    /** Company.update: empty data is refused before any lookup; a missing
        handle is NotFound; otherwise the SET list is executed on the row and
        the row is the partial update of the old one by field name. */
    method Update(handle: string, data: seq<Entry>) returns (r: Result<CompanyRow>)
      requires Valid()
      requires DistinctKeys(data)
      requires forall i :: 0 <= i < |data| ==> data[i].0 in UpdatableFields
      modifies this
      ensures Valid()
      ensures |data| == 0 ==> r == Err(BadRequest(NoData)) && rows == old(rows)
      ensures |data| > 0 && handle !in old(rows) ==>
        r == Err(NotFound("No company: " + handle)) && rows == old(rows)
      ensures |data| > 0 && handle in old(rows) ==>
        && r == Ok(Patched(old(rows)[handle], data))
        && rows == old(rows)[handle := Patched(old(rows)[handle], data)]
    {
      var q := UpdateQueryFor(handle, data);
      if q.Err? {
        return Err(q.error);
      }
      if handle !in rows {
        return Err(NotFound("No company: " + handle));
      }
      var params := q.value.params;
      assert params[..|data|] == Values(data);
      ExecuteSetPatches(rows[handle], data);
      var updated := ExecuteSet(rows[handle], SetColumns(data, CompanyColumnMap), params[..|data|]);
      rows := rows[handle := updated];
      r := Ok(updated);
    }

    /** Company.remove: a missing handle is NotFound; otherwise the row goes. */
    method Remove(handle: string) returns (r: Result<()>)
      requires Valid()
      modifies this
      ensures Valid()
      ensures old(handle in rows) ==> r == Ok(()) && rows == old(rows) - {handle}
      ensures old(handle !in rows) ==> r == Err(NotFound("No company: " + handle)) && rows == old(rows)
    {
      if handle !in rows {
        return Err(NotFound("No company: " + handle));
      }
      rows := rows - {handle};
      r := Ok(());
    }

    /** Company.findWhere, given the rows the database selected with the
        WHERE clause: a refused clause is reported before any query, an
        empty selection is NotFound, and any other selection is returned. */
    method FindWhere(criteria: seq<Entry>, selected: seq<CompanyRow>) returns (r: Result<seq<CompanyRow>>)
      requires Valid()
      ensures SqlClauseForFindWhere(criteria).Err? ==> r == Err(SqlClauseForFindWhere(criteria).error)
      ensures SqlClauseForFindWhere(criteria).Ok? && selected == [] ==>
        r == Err(NotFound("No companies match the criteria"))
      ensures SqlClauseForFindWhere(criteria).Ok? && selected != [] ==> r == Ok(selected)
      ensures r.Ok? <==> SqlClauseForFindWhere(criteria).Ok? && selected != []
    {
      var clause := SqlClauseForFindWhere(criteria);
      if clause.Err? {
        return Err(clause.error);
      }
      if |selected| == 0 {
        return Err(NotFound("No companies match the criteria"));
      }
      r := Ok(selected);
    }
  }
}
