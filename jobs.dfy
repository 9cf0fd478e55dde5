/** The job search WHERE builder: one predicate per search key, built in a
    loop that pushes the bound values onto a growing array as it goes. */
module Jobs {
  import opened Js
  import opened Errors
  import opened Clause
  import opened Sql

  const NoData := "No data"
  const InvalidCriteria := "Invalid search criteria"

  /** The allow-list of search filters. */
  const JobFilters: seq<string> := ["title", "minSalary", "hasEquity"]

  /** What an equity filter binds, whichever way it goes: the string "0.0". */
  const ZeroEquity := VStr("0.0")

  const TitleTemplate := Template("title ILIKE '%'|| ", " ||'%'")
  const MinSalaryTemplate := Template("salary >= ", "")
  const WithEquityTemplate := Template("equity > ", "")
  const WithoutEquityTemplate := Template("equity = ", "")
  const JobTemplates: seq<Template> := [TitleTemplate, MinSalaryTemplate, WithEquityTemplate, WithoutEquityTemplate]

  predicate AllAllowed(criteria: seq<Entry>)
  {
    forall i :: 0 <= i < |criteria| ==> criteria[i].0 in JobFilters
  }

  /** The predicate template of one search key, or None when no branch of
      the builder matches it (an equity flag that is not a boolean). */
  function JobTemplate(e: Entry): Option<Template>
  {
    if e.0 == "title" then Some(TitleTemplate)
    else if e.0 == "minSalary" then Some(MinSalaryTemplate)
    else if e.0 == "hasEquity" && e.1 == VBool(true) then Some(WithEquityTemplate)
    else if e.0 == "hasEquity" && e.1 == VBool(false) then Some(WithoutEquityTemplate)
    else None
  }

  /** The value one search key pushes, if any. */
  function JobBinding(e: Entry): Option<Value>
  {
    if e.0 == "title" || e.0 == "minSalary" then Some(e.1)
    else if e.0 == "hasEquity" && (e.1 == VBool(true) || e.1 == VBool(false)) then Some(ZeroEquity)
    else None
  }

  /** The fragment of the key at 0-based position `i`: its template with
      placeholder `$(i+1)`, or the empty string `join` makes of `undefined`. */
  function JobFragment(e: Entry, i: nat): string
  {
    match JobTemplate(e)
    case None => ""
    case Some(t) => Render(t, i + 1)
  }

  function JobFragments(criteria: seq<Entry>): (fs: seq<string>)
    ensures |fs| == |criteria|
  {
    seq(|criteria|, i requires 0 <= i < |criteria| => JobFragment(criteria[i], i))
  }

  /** The values pushed for `criteria`, in key order. */
  function JobValues(criteria: seq<Entry>): seq<Value>
    decreases |criteria|
  {
    if criteria == [] then []
    else
      var last := criteria[|criteria| - 1];
      JobValues(criteria[..|criteria| - 1])
        + (match JobBinding(last) case None => [] case Some(v) => [v])
  }

  /** The fragment of each key spelled out. */
  lemma FragmentSpelledOut(e: Entry, i: nat)
    ensures var n := NatToString(i + 1);
      JobFragment(e, i)
      == if e.0 == "title" then "title ILIKE '%'|| $" + n + " ||'%'"
         else if e.0 == "minSalary" then "salary >= $" + n
         else if e.0 == "hasEquity" && e.1 == VBool(true) then "equity > $" + n
         else if e.0 == "hasEquity" && e.1 == VBool(false) then "equity = $" + n
         else ""
  {
  }

  /** Extending the keys seen by one extends the fragments and the pushed
      values by that key's. */
  lemma StepOne(criteria: seq<Entry>, i: nat)
    requires i < |criteria|
    ensures AllAllowed(criteria[..i]) && criteria[i].0 in JobFilters ==> AllAllowed(criteria[..i + 1])
    ensures JobFragments(criteria[..i + 1]) == JobFragments(criteria[..i]) + [JobFragment(criteria[i], i)]
    ensures JobValues(criteria[..i + 1])
         == JobValues(criteria[..i]) + (match JobBinding(criteria[i]) case None => [] case Some(v) => [v])
  {
    assert criteria[..i + 1][..i] == criteria[..i];
    assert criteria[..i + 1][i] == criteria[i];
  }

  /** The builder's outcome: empty criteria and keys outside the allow-list
      are refused; otherwise the fragments joined by " AND " and the pushed
      values. */
  function JobWhere(criteria: seq<Entry>): (r: Result<SqlClause>)
    ensures r.Err? <==> |criteria| == 0 || !AllAllowed(criteria)
    ensures |criteria| == 0 ==> r == Err(BadRequest(NoData))
    ensures |criteria| > 0 && !AllAllowed(criteria) ==> r == Err(BadRequest(InvalidCriteria))
    ensures r.Ok? && EquityFlagsBoolean(criteria) ==> |r.value.values| == |criteria|
  {
    if |criteria| == 0 then Err(BadRequest(NoData))
    else if !AllAllowed(criteria) then Err(BadRequest(InvalidCriteria))
    else
      var r := Ok(SqlClause(Join(JobFragments(criteria), " AND "), JobValues(criteria)));
      if EquityFlagsBoolean(criteria) then ValuesAligned(criteria); r else r
  }

  /** Job.sqlClauseForFindWhere: walks the keys in order; an unknown key
      stops the walk with an error; each known key contributes its fragment
      and pushes its value. */
  method SqlClauseForFindWhere(criteria: seq<Entry>) returns (r: Result<SqlClause>)
    ensures r == JobWhere(criteria)
  {
    if |criteria| == 0 {
      return Err(BadRequest(NoData));
    }
    var values: seq<Value> := [];
    var fragments: seq<string> := [];
    var i := 0;
    while i < |criteria|
      invariant 0 <= i <= |criteria|
      invariant AllAllowed(criteria[..i])
      invariant fragments == JobFragments(criteria[..i])
      invariant values == JobValues(criteria[..i])
    {
      var key, v := criteria[i].0, criteria[i].1;
      if key !in JobFilters {
        assert !AllAllowed(criteria) by {
          assert criteria[i].0 !in JobFilters;
        }
        return Err(BadRequest(InvalidCriteria));
      }
      StepOne(criteria, i);
      FragmentSpelledOut(criteria[i], i);
      var paramNum := NatToString(i + 1);
      var fragment := "";
      if key == "title" {
        values := values + [v];
        fragment := "title ILIKE '%'|| $" + paramNum + " ||'%'";
      } else if key == "minSalary" {
        values := values + [v];
        fragment := "salary >= $" + paramNum;
      } else if v == VBool(true) {
        values := values + [ZeroEquity];
        fragment := "equity > $" + paramNum;
      } else if v == VBool(false) {
        values := values + [ZeroEquity];
        fragment := "equity = $" + paramNum;
      }
      assert fragment == JobFragment(criteria[i], i);
      assert values == JobValues(criteria[..i + 1]);
      fragments := fragments + [fragment];
      i := i + 1;
    }
    assert criteria[..i] == criteria;
    assert fragments == JobFragments(criteria) && values == JobValues(criteria);
    assert AllAllowed(criteria);
    r := Ok(SqlClause(Join(fragments, " AND "), values));
  }

  /** Every equity flag present is a boolean. */
  predicate EquityFlagsBoolean(criteria: seq<Entry>)
  {
    forall i :: 0 <= i < |criteria| && criteria[i].0 == "hasEquity" ==>
      criteria[i].1 == VBool(true) || criteria[i].1 == VBool(false)
  }

  /** With boolean equity flags, every allowed key pushes exactly one value:
      the k-th value belongs to the k-th key, and is that key's own value for
      a title or salary and "0.0" for an equity flag. */
  lemma {:induction false} ValuesAligned(criteria: seq<Entry>)
    requires AllAllowed(criteria) && EquityFlagsBoolean(criteria)
    ensures |JobValues(criteria)| == |criteria|
    ensures forall i :: 0 <= i < |criteria| ==>
      JobValues(criteria)[i] == (if criteria[i].0 == "hasEquity" then ZeroEquity else criteria[i].1)
    decreases |criteria|
  {
    if criteria != [] {
      var front, last := criteria[..|criteria| - 1], criteria[|criteria| - 1];
      assert forall i :: 0 <= i < |front| ==> front[i] == criteria[i];
      ValuesAligned(front);
      var v := if last.0 == "hasEquity" then ZeroEquity else last.1;
      assert JobBinding(last) == Some(v) by {
        assert last.0 in JobFilters;
      }
      assert JobValues(criteria) == JobValues(front) + [v];
    }
  }

  /** The template each key uses when its equity flag is boolean. */
  function KeyTemplates(criteria: seq<Entry>): (ts: seq<Template>)
    requires AllAllowed(criteria) && EquityFlagsBoolean(criteria)
    ensures |ts| == |criteria|
    ensures forall i :: 0 <= i < |ts| ==> Some(ts[i]) == JobTemplate(criteria[i]) && ts[i] in JobTemplates
  {
    seq(|criteria|, i requires 0 <= i < |criteria| => JobTemplate(criteria[i]).value)
  }

  lemma JobTemplatesUnambiguous()
    ensures Unambiguous(JobTemplates, " AND ")
  {
    var title, salary, with, without := TitleTemplate, MinSalaryTemplate, WithEquityTemplate, WithoutEquityTemplate;
    LeadsDiffer(title, salary, 0);
    LeadsDiffer(title, with, 0);
    LeadsDiffer(title, without, 0);
    LeadsDiffer(salary, with, 0);
    LeadsDiffer(salary, without, 0);
    LeadsDiffer(with, without, 7);
    var ts := JobTemplates;
    forall i, j | 0 <= i < |ts| && 0 <= j < |ts| && ts[i] != ts[j]
      ensures !IsPrefix(Lead(ts[i]), Lead(ts[j]))
    {
      assert ts[i] in {title, salary, with, without} && ts[j] in {title, salary, with, without};
    }
    assert !IsDigit(" AND "[0]) && !IsDigit(title.after[0]);
  }

  /** With boolean equity flags, reading the WHERE clause back recovers, in
      key order, each key's predicate with placeholders `$1`, `$2`, ...; and
      `$k` binds the k-th pushed value. */
  lemma WhereDenotes(criteria: seq<Entry>)
    requires JobWhere(criteria).Ok? && EquityFlagsBoolean(criteria)
    ensures ParseClause(JobWhere(criteria).value.text, JobTemplates, " AND ")
         == Some(Numbered(KeyTemplates(criteria), 1))
  {
    var ts := KeyTemplates(criteria);
    assert JobFragments(criteria) == Rendered(ts, 1) by {
      forall i | 0 <= i < |criteria| ensures JobFragments(criteria)[i] == Rendered(ts, 1)[i] {
        RenderedAt(ts, 1, i);
      }
    }
    JobTemplatesUnambiguous();
    ParseRendered(ts, 1, JobTemplates, " AND ");
  }

  /** The predicate read back at 0-based position i is the i-th key's and
      uses `$(i+1)`, which binds the i-th key's pushed value. */
  lemma PlaceholderBindsValue(criteria: seq<Entry>, i: nat)
    requires JobWhere(criteria).Ok? && EquityFlagsBoolean(criteria) && i < |criteria|
    ensures var p := Numbered(KeyTemplates(criteria), 1)[i];
      && Some(p.0) == JobTemplate(criteria[i]) && p.1 == i + 1
      && JobWhere(criteria).value.values[p.1 - 1] == JobBinding(criteria[i]).value
  {
    RenderedAt(KeyTemplates(criteria), 1, i);
    ValuesAligned(criteria);
  }

  /** A single salary bound, as in models/jobs.test.js. */
  lemma MinSalaryExample()
    ensures JobWhere([("minSalary", VInt(20000))]) == Ok(SqlClause("salary >= $1", [VInt(20000)]))
  {
    var c := [("minSalary", VInt(20000))];
    assert c[0].0 == JobFilters[1];
    assert NatToString(1) == "1";
    FragmentSpelledOut(c[0], 0);
    StepOne(c, 0);
    assert c[..0] == [] && c[..1] == c;
    assert JobFragment(c[0], 0) == "salary >= $1";
    assert JobFragments(c) == ["salary >= $1"];
    assert JobValues(c) == [VInt(20000)];
  }

  /** Three keys, as in models/jobs.test.js, with the string "0.0" the code
      pushes for the equity flag. */
  lemma ThreeFiltersExample()
    ensures JobWhere([("minSalary", VInt(20000)), ("hasEquity", VBool(true)), ("title", VStr("paper"))])
         == Ok(SqlClause("salary >= $1" + " AND " + ("equity > $2" + " AND " + "title ILIKE '%'|| $3 ||'%'"),
                         [VInt(20000), ZeroEquity, VStr("paper")]))
  {
    var c := [("minSalary", VInt(20000)), ("hasEquity", VBool(true)), ("title", VStr("paper"))];
    assert AllAllowed(c) by {
      assert c[0].0 == JobFilters[1];
      assert c[1].0 == JobFilters[2];
      assert c[2].0 == JobFilters[0];
    }
    ThreeFiltersFragments(c);
    var fs := JobFragments(c);
    assert fs[1..][1..] == fs[2..];
    assert Join(fs[1..], " AND ") == "equity > $2" + " AND " + "title ILIKE '%'|| $3 ||'%'";
    ThreeFiltersValues(c);
  }

  lemma ThreeFiltersFragments(c: seq<Entry>)
    requires c == [("minSalary", VInt(20000)), ("hasEquity", VBool(true)), ("title", VStr("paper"))]
    ensures JobFragments(c) == ["salary >= $1", "equity > $2", "title ILIKE '%'|| $3 ||'%'"]
  {
    assert NatToString(1) == "1" && NatToString(2) == "2" && NatToString(3) == "3";
    assert c[1].0 != "minSalary" by {
      assert c[1].0[0] != "minSalary"[0];
    }
    assert JobTemplate(c[0]) == Some(MinSalaryTemplate);
    assert JobTemplate(c[1]) == Some(WithEquityTemplate);
    assert JobTemplate(c[2]) == Some(TitleTemplate);
    assert Render(MinSalaryTemplate, 1) == "salary >= $1";
    assert Render(WithEquityTemplate, 2) == "equity > $2";
    assert Render(TitleTemplate, 3) == "title ILIKE '%'|| $3 ||'%'";
  }

  lemma ThreeFiltersValues(c: seq<Entry>)
    requires c == [("minSalary", VInt(20000)), ("hasEquity", VBool(true)), ("title", VStr("paper"))]
    ensures JobValues(c) == [VInt(20000), ZeroEquity, VStr("paper")]
  {
    assert c[1].0 != "minSalary" by {
      assert c[1].0[0] != "minSalary"[0];
    }
    StepOne(c, 0);
    StepOne(c, 1);
    StepOne(c, 2);
    assert c[..0] == [] && c[..3] == c;
  }

  /** An equity flag that is not a boolean (the string "true", as a query
      string delivers it) gives an empty fragment and pushes nothing, so the
      next key's `$2` has no value to bind. */
  lemma NonBooleanEquityExample()
    ensures JobWhere([("hasEquity", VStr("true")), ("title", VStr("paper"))])
         == Ok(SqlClause("" + " AND " + "title ILIKE '%'|| $2 ||'%'", [VStr("paper")]))
  {
    var c := [("hasEquity", VStr("true")), ("title", VStr("paper"))];
    assert AllAllowed(c) by {
      assert c[0].0 == JobFilters[2];
      assert c[1].0 == JobFilters[0];
    }
    assert NatToString(2) == "2";
    assert c[0].0 != "minSalary" by {
      assert c[0].0[0] != "minSalary"[0];
    }
    FragmentSpelledOut(c[0], 0);
    FragmentSpelledOut(c[1], 1);
    assert JobFragment(c[0], 0) == "";
    assert JobFragment(c[1], 1) == "title ILIKE '%'|| $2 ||'%'";
    StepOne(c, 0);
    StepOne(c, 1);
    assert c[..0] == [] && c[..2] == c;
    assert JobFragments(c) == ["", "title ILIKE '%'|| $2 ||'%'"];
    assert JobValues(c) == [VStr("paper")];
  }
}
