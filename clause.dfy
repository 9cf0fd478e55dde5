/** Parameterized SQL fragments: fixed text around one `$n` placeholder,
    rendered with ascending numbers and joined by a separator, and a reader
    that recovers from the joined text which fragment carries which
    placeholder. */
module Clause {
  import opened Js

  /** A fragment `before $n after`. */
  datatype Template = Template(before: string, after: string)

  /** The text up to and including the `$` of the placeholder. */
  function Lead(t: Template): string
  {
    t.before + "$"
  }

  function Render(t: Template, n: nat): string
  {
    Lead(t) + NatToString(n) + t.after
  }

  /** The fragments of `ts`, numbered `first`, `first + 1`, ... */
  function Rendered(ts: seq<Template>, first: nat): (fs: seq<string>)
    ensures |fs| == |ts|
    decreases |ts|
  {
    if ts == [] then [] else [Render(ts[0], first)] + Rendered(ts[1..], first + 1)
  }

  /** The templates of `ts` paired with the numbers they are rendered with. */
  function Numbered(ts: seq<Template>, first: nat): (ps: seq<(Template, nat)>)
    ensures |ps| == |ts|
    decreases |ts|
  {
    if ts == [] then [] else [(ts[0], first)] + Numbered(ts[1..], first + 1)
  }

  /** The i-th rendered fragment carries placeholder `first + i`. */
  lemma {:induction false} RenderedAt(ts: seq<Template>, first: nat, i: nat)
    requires i < |ts|
    ensures Rendered(ts, first)[i] == Render(ts[i], first + i)
    ensures Numbered(ts, first)[i] == (ts[i], first + i)
    decreases i
  {
    if i > 0 {
      RenderedAt(ts[1..], first + 1, i - 1);
    }
  }

  predicate IsPrefix(p: string, s: string)
  {
    |p| <= |s| && s[..|p|] == p
  }

  /** The first template of `ts` whose lead starts `s`. */
  function FirstMatch(s: string, ts: seq<Template>): (r: Option<Template>)
    ensures r.Some? ==> r.value in ts && IsPrefix(Lead(r.value), s)
    decreases |ts|
  {
    if ts == [] then None
    else if IsPrefix(Lead(ts[0]), s) then Some(ts[0])
    else FirstMatch(s, ts[1..])
  }

  /** A template table can be read back when no lead starts another one,
      and a placeholder's digits are always followed by a non-digit. */
  predicate Unambiguous(ts: seq<Template>, sep: string)
  {
    && sep != [] && !IsDigit(sep[0])
    && (forall i :: 0 <= i < |ts| ==> ts[i].after == [] || !IsDigit(ts[i].after[0]))
    && (forall i, j :: 0 <= i < |ts| && 0 <= j < |ts| && ts[i] != ts[j] ==>
          !IsPrefix(Lead(ts[i]), Lead(ts[j])))
  }

  /** Two leads that differ at some position are not prefixes of each other. */
  lemma LeadsDiffer(a: Template, b: Template, k: nat)
    requires k < |Lead(a)| && k < |Lead(b)| && Lead(a)[k] != Lead(b)[k]
    ensures !IsPrefix(Lead(a), Lead(b)) && !IsPrefix(Lead(b), Lead(a))
  {
  }

  /** Reads a placeholder number off the front of `s`: the number its
      leading digits denote and the text after them. */
  function ReadPlaceholder(s: string): (r: Option<(nat, string)>)
    ensures r.Some? ==> |r.value.1| < |s|
  {
    var d := DigitRun(s);
    if d == 0 then None else Some((DigitsValue(s[..d]), s[d..]))
  }

  /** Reads one fragment off the front of `s`: its template, its
      placeholder number and the text after it. */
  function ReadFragment(s: string, ts: seq<Template>): (r: Option<(Template, nat, string)>)
    ensures r.Some? ==> |r.value.2| < |s|
  {
    match FirstMatch(s, ts)
    case None => None
    case Some(t) =>
      match ReadPlaceholder(s[|Lead(t)|..])
      case None => None
      case Some((n, rest)) =>
        if IsPrefix(t.after, rest) then Some((t, n, rest[|t.after|..])) else None
  }

  /** Reads a joined clause back as the sequence of (template, number)
      it was rendered from; None when the text is not such a clause. */
  function ParseClause(s: string, ts: seq<Template>, sep: string): Option<seq<(Template, nat)>>
    decreases |s|
  {
    match ReadFragment(s, ts)
    case None => None
    case Some((t, n, more)) =>
      if more == [] then Some([(t, n)])
      else if sep == [] || !IsPrefix(sep, more) then None
      else
        match ParseClause(more[|sep|..], ts, sep)
        case None => None
        case Some(ps) => Some([(t, n)] + ps)
  }

  /** When `s` starts with the lead of `t`, the table picks `t` itself. */
  lemma {:induction false} FirstMatchPicks(s: string, ts: seq<Template>, t: Template, sep: string)
    requires Unambiguous(ts, sep) && t in ts && IsPrefix(Lead(t), s)
    ensures FirstMatch(s, ts) == Some(t)
  {
    var j :| 0 <= j < |ts| && ts[j] == t;
    FirstMatchFrom(s, ts, 0, j, sep);
  }

  lemma {:induction false} FirstMatchFrom(s: string, ts: seq<Template>, k: nat, j: nat, sep: string)
    requires Unambiguous(ts, sep) && k <= j < |ts| && IsPrefix(Lead(ts[j]), s)
    ensures FirstMatch(s, ts[k..]) == Some(ts[j])
    decreases j - k
  {
    PrefixesOfOneString(Lead(ts[k]), Lead(ts[j]), s);
    if !IsPrefix(Lead(ts[k]), s) {
      assert ts[k..][1..] == ts[k + 1..];
      FirstMatchFrom(s, ts, k + 1, j, sep);
    }
  }

  /** Two prefixes of one string are prefixes of each other, one way or the other. */
  lemma PrefixesOfOneString(a: string, b: string, s: string)
    ensures IsPrefix(a, s) && IsPrefix(b, s) ==> IsPrefix(a, b) || IsPrefix(b, a)
  {
  }

  /** A rendered number followed by a non-digit (or nothing) is read back
      as that number, leaving what follows it. */
  lemma ReadNumber(n: nat, tail: string)
    requires tail == [] || !IsDigit(tail[0])
    ensures ReadPlaceholder(NatToString(n) + tail) == Some((n, tail))
  {
    var digits := NatToString(n);
    DigitRunOf(digits, tail);
    assert (digits + tail)[..|digits|] == digits;
    assert (digits + tail)[|digits|..] == tail;
    NatToStringRoundTrip(n);
  }

  /** A rendered fragment followed by nothing, or by the separator, is
      read back as its template and number. */
  lemma ReadRendered(t: Template, n: nat, more: string, ts: seq<Template>, sep: string)
    requires Unambiguous(ts, sep) && t in ts
    requires more == [] || IsPrefix(sep, more)
    ensures ReadFragment(Render(t, n) + more, ts) == Some((t, n, more))
  {
    var s := Render(t, n) + more;
    assert s == Lead(t) + (NatToString(n) + (t.after + more));
    assert s[..|Lead(t)|] == Lead(t);
    FirstMatchPicks(s, ts, t, sep);
    var k :| 0 <= k < |ts| && ts[k] == t;
    assert t.after + more == [] || !IsDigit((t.after + more)[0]);
    ReadMatched(s, t, n, more, ts);
  }

  /** Once the table has picked `t`, the number and the rest are read off. */
  lemma ReadMatched(s: string, t: Template, n: nat, more: string, ts: seq<Template>)
    requires s == Lead(t) + (NatToString(n) + (t.after + more))
    requires FirstMatch(s, ts) == Some(t)
    requires t.after + more == [] || !IsDigit((t.after + more)[0])
    ensures ReadFragment(s, ts) == Some((t, n, more))
  {
    var tail := t.after + more;
    assert s[|Lead(t)|..] == NatToString(n) + tail;
    ReadNumber(n, tail);
    assert ReadPlaceholder(s[|Lead(t)|..]) == Some((n, tail));
    assert tail[..|t.after|] == t.after;
    assert tail[|t.after|..] == more;
  }

  /** Joining rendered fragments and reading the text back recovers every
      fragment's template and placeholder number, in order. */
  lemma {:induction false} ParseRendered(used: seq<Template>, first: nat, ts: seq<Template>, sep: string)
    requires |used| > 0
    requires Unambiguous(ts, sep)
    requires forall i :: 0 <= i < |used| ==> used[i] in ts
    ensures ParseClause(Join(Rendered(used, first), sep), ts, sep) == Some(Numbered(used, first))
    decreases |used|
  {
    var fs := Rendered(used, first);
    assert fs[0] == Render(used[0], first);
    if |used| == 1 {
      assert Join(fs, sep) == Render(used[0], first) + [];
      ReadRendered(used[0], first, [], ts, sep);
      assert used[1..] == [];
      assert Numbered(used, first) == [(used[0], first)];
    } else {
      var later := Join(Rendered(used[1..], first + 1), sep);
      assert fs[1..] == Rendered(used[1..], first + 1);
      assert Join(fs, sep) == Render(used[0], first) + (sep + later);
      assert (sep + later)[|sep|..] == later;
      ReadRendered(used[0], first, sep + later, ts, sep);
      ParseRendered(used[1..], first + 1, ts, sep);
    }
  }
}
