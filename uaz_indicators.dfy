/**
 * The UAZ indicators discoverer: `discover_indicators` walks the (variable, unit) rows of the
 * indicator database in order and groups consecutive variables that share the prefix before their
 * first comma; `make_indicator_dataset` turns each group into one dataset (its CSV header, the
 * query parameters and the CSV rows). The database, the shared storage and `uuid.uuid5` are
 * parameters of `MakeIndicatorDataset`: `rows` is what the join query returns for the group, `id`
 * the id derived from its prefix; `DiscoverIndicators` returns the groups it hands over, in order.
 */
module UazIndicators {
  import opened Wrappers
  import opened PyStr
  import opened Json

  /** One `(Variable, Unit)` row; `Unit` may be SQL `NULL`. */
  datatype Indicator = Indicator(variable: string, unit: Option<string>)

  /** A run of consecutive variables sharing one prefix. */
  datatype Group = Group(prefix: string, variables: seq<Indicator>)

  /** What `make_indicator_dataset` writes and records for one group. */
  datatype IndicatorDataset = IndicatorDataset(
    id: string,
    source: Dict,
    metadata: Dict,
    header: seq<string>,
    params: Dict,
    rows: seq<seq<Value>>)

  // ---------------------------------------------------------------------------
  // Prefixes and grouping
  // ---------------------------------------------------------------------------

  /** The variable name up to its first `,`, or the whole name when it has none. */
  function Prefix(name: string): string
  {
    match Find(name, ",")
    case Some(idx) => name[..idx]
    case None => name
  }

  /**
   * The prefix is a comma-free start of the name that ends at the name's end or right before its
   * first comma.
   */
  lemma PrefixIsBeforeFirstComma(name: string)
    ensures var r := Prefix(name);
      && r <= name
      && (forall k :: 0 <= k < |r| ==> r[k] != ',')
      && (|r| < |name| ==> name[|r|] == ',')
  {
    match Find(name, ",")
    case Some(idx) =>
      CharNotBefore(name, ',', idx);
      assert name[idx..idx + 1] == ",";
    case None =>
      CharNotBefore(name, ',', |name|);
  }

  /** A group list extended by one variable: it joins the last group or opens a new one. */
  function AddVariable(g: seq<Group>, x: Indicator): seq<Group>
  {
    if g != [] && g[|g| - 1].prefix == Prefix(x.variable) then
      g[..|g| - 1] + [Group(g[|g| - 1].prefix, g[|g| - 1].variables + [x])]
    else
      g + [Group(Prefix(x.variable), [x])]
  }

  /** What `AddVariable` does to the last group, and that the others stay. */
  lemma AddVariableLast(g: seq<Group>, x: Indicator)
    ensures var r := AddVariable(g, x);
      var joins := g != [] && g[|g| - 1].prefix == Prefix(x.variable);
      && r != []
      && (joins ==> r[..|r| - 1] == g[..|g| - 1] && r[|r| - 1] == Group(g[|g| - 1].prefix, g[|g| - 1].variables + [x]))
      && (!joins ==> r[..|r| - 1] == g && r[|r| - 1] == Group(Prefix(x.variable), [x]))
  {
  }

  /**
   * The groups `discover_indicators` hands to `make_indicator_dataset`, in order: a variable joins
   * the last group when it has that group's prefix, and starts a new group otherwise.
   */
  function Groups(s: seq<Indicator>): seq<Group>
  {
    if s == [] then [] else AddVariable(Groups(s[..|s| - 1]), s[|s| - 1])
  }

  lemma GroupsSnoc(s: seq<Indicator>, x: Indicator)
    ensures Groups(s + [x]) == AddVariable(Groups(s), x)
  {
    assert (s + [x])[..|s|] == s;
  }

  lemma GroupsStep(s: seq<Indicator>, i: nat)
    requires i < |s|
    ensures Groups(s[..i + 1]) == AddVariable(Groups(s[..i]), s[i])
  {
    GroupsSnoc(s[..i], s[i]);
    assert s[..i + 1] == s[..i] + [s[i]];
  }

  /** The variables of the groups, one group after the other. */
  function Flatten(groups: seq<Group>): seq<Indicator>
  {
    if groups == [] then [] else Flatten(groups[..|groups| - 1]) + groups[|groups| - 1].variables
  }

  lemma FlattenSnoc(groups: seq<Group>, h: Group)
    ensures Flatten(groups + [h]) == Flatten(groups) + h.variables
  {
    assert (groups + [h])[..|groups|] == groups;
  }

  /** Every variable of `variables` has prefix `p`. */
  predicate SharePrefix(p: string, variables: seq<Indicator>)
  {
    forall j :: 0 <= j < |variables| ==> Prefix(variables[j].variable) == p
  }

  /**
   * Every group is non-empty and all its variables have its prefix, and two adjacent groups never
   * share a prefix.
   */
  predicate WellGrouped(groups: seq<Group>)
  {
    && (forall k :: 0 <= k < |groups| ==> groups[k].variables != [] && SharePrefix(groups[k].prefix, groups[k].variables))
    && (forall k :: 0 < k < |groups| ==> groups[k - 1].prefix != groups[k].prefix)
  }

  lemma {:induction false} JoinLast(g: seq<Group>, x: Indicator)
    requires WellGrouped(g) && g != [] && g[|g| - 1].prefix == Prefix(x.variable)
    ensures WellGrouped(AddVariable(g, x)) && Flatten(AddVariable(g, x)) == Flatten(g) + [x]
  {
    var n := |g| - 1;
    var last := Group(g[n].prefix, g[n].variables + [x]);
    var r := g[..n] + [last];
    assert r == AddVariable(g, x);
    assert SharePrefix(last.prefix, last.variables);
    assert forall k :: 0 <= k < n ==> r[k] == g[k];
    FlattenSnoc(g[..n], g[n]);
    FlattenSnoc(g[..n], last);
    assert g[..n] + [g[n]] == g;
  }

  lemma {:induction false} OpenGroup(g: seq<Group>, x: Indicator)
    requires WellGrouped(g) && (g == [] || g[|g| - 1].prefix != Prefix(x.variable))
    ensures WellGrouped(AddVariable(g, x)) && Flatten(AddVariable(g, x)) == Flatten(g) + [x]
  {
    var r := g + [Group(Prefix(x.variable), [x])];
    assert r == AddVariable(g, x);
    assert forall k :: 0 <= k < |g| ==> r[k] == g[k];
    FlattenSnoc(g, Group(Prefix(x.variable), [x]));
  }

  /** The groups are well formed and put back together give the input, in order. */
  lemma {:induction false} GroupsPartition(s: seq<Indicator>)
    ensures WellGrouped(Groups(s)) && Flatten(Groups(s)) == s
  {
    if s != [] {
      var init, x := s[..|s| - 1], s[|s| - 1];
      GroupsPartition(init);
      GroupsSnoc(init, x);
      assert init + [x] == s;
      var g := Groups(init);
      if g != [] && g[|g| - 1].prefix == Prefix(x.variable) {
        JoinLast(g, x);
      } else {
        OpenGroup(g, x);
      }
    }
  }

  /** A group list without groups flattens to nothing, and a non-empty one to something. */
  lemma {:induction false} FlattenEmpty(groups: seq<Group>)
    requires forall k :: 0 <= k < |groups| ==> groups[k].variables != []
    ensures Flatten(groups) == [] <==> groups == []
  {
    if groups != [] {
      assert |Flatten(groups)| >= |groups[|groups| - 1].variables| > 0;
    }
  }

  /** A well-formed group list whose last group holds one variable `x`, without that group. */
  lemma {:induction false} DropSingleton(before: seq<Group>, p: string, x: Indicator)
    requires WellGrouped(before + [Group(p, [x])])
    ensures var groups := before + [Group(p, [x])];
      && WellGrouped(before) && groups == AddVariable(before, x) && Flatten(groups) == Flatten(before) + [x]
  {
    var groups := before + [Group(p, [x])];
    assert forall k :: 0 <= k < |before| ==> groups[k] == before[k];
    assert Prefix(x.variable) == p by {
      assert groups[|before|].variables[0] == x;
    }
    FlattenSnoc(before, Group(p, [x]));
  }

  /** A well-formed group list whose last group ends in `x` after other variables `vs`, without that `x`. */
  lemma {:induction false} DropLastVariable(before: seq<Group>, p: string, vs: seq<Indicator>, x: Indicator)
    requires WellGrouped(before + [Group(p, vs + [x])]) && vs != []
    ensures var groups, shorter := before + [Group(p, vs + [x])], before + [Group(p, vs)];
      && WellGrouped(shorter) && groups == AddVariable(shorter, x) && Flatten(groups) == Flatten(shorter) + [x]
  {
    var shorter := before + [Group(p, vs)];
    LastGroupShrinks(before, p, vs, x);
    assert shorter[..|before|] == before;
    FlattenSnoc(before, Group(p, vs));
    FlattenSnoc(before, Group(p, vs + [x]));
  }

  /** Dropping the last variable of a group of several keeps the list well formed. */
  lemma {:induction false} LastGroupShrinks(before: seq<Group>, p: string, vs: seq<Indicator>, x: Indicator)
    requires WellGrouped(before + [Group(p, vs + [x])]) && vs != []
    ensures WellGrouped(before + [Group(p, vs)]) && Prefix(x.variable) == p
  {
    var groups, shorter := before + [Group(p, vs + [x])], before + [Group(p, vs)];
    assert groups[|before|] == Group(p, vs + [x]);
    assert SharePrefix(p, vs + [x]);
    assert SharePrefix(p, vs) by {
      assert forall j :: 0 <= j < |vs| ==> (vs + [x])[j] == vs[j];
    }
    assert (vs + [x])[|vs|] == x;
    assert forall k :: 0 <= k < |before| ==> shorter[k] == groups[k];
    assert shorter[|before|] == Group(p, vs);
  }

  /** A non-empty well-formed group list is a shorter well-formed one with one more variable. */
  lemma {:induction false} LastAdded(groups: seq<Group>) returns (before: seq<Group>, x: Indicator)
    requires WellGrouped(groups) && groups != []
    ensures WellGrouped(before) && groups == AddVariable(before, x) && Flatten(groups) == Flatten(before) + [x]
  {
    var n := |groups| - 1;
    var p, vs := groups[n].prefix, groups[n].variables;
    x := vs[|vs| - 1];
    var rest := vs[..|vs| - 1];
    assert rest + [x] == vs;
    assert groups[n] == Group(p, rest + [x]);
    assert groups == groups[..n] + [groups[n]];
    if rest == [] {
      DropSingleton(groups[..n], p, x);
      before := groups[..n];
    } else {
      DropLastVariable(groups[..n], p, rest, x);
      before := groups[..n] + [Group(p, rest)];
    }
  }

  /**
   * The grouping is the only well-formed one: any list of groups that is well formed and flattens
   * to the input is the one `discover_indicators` produces.
   */
  lemma {:induction false} GroupsUnique(s: seq<Indicator>, groups: seq<Group>)
    requires WellGrouped(groups) && Flatten(groups) == s
    ensures groups == Groups(s)
    decreases |s|
  {
    FlattenEmpty(groups);
    if groups != [] {
      var before, x := LastAdded(groups);
      GroupsUnique(Flatten(before), before);
      GroupsSnoc(Flatten(before), x);
    }
  }

  /** Empty input produces no groups, so no dataset. */
  lemma NoIndicatorsNoGroups()
    ensures Groups([]) == []
  {
  }

  /**
   * Only adjacent variables are merged: a prefix that comes back after another one starts a second
   * group of its own.
   */
  lemma RecurringPrefix(a: Indicator, b: Indicator, c: Indicator)
    requires Prefix(a.variable) == Prefix(c.variable) != Prefix(b.variable)
    ensures Groups([a, b, c]) == [
      Group(Prefix(a.variable), [a]), Group(Prefix(b.variable), [b]), Group(Prefix(a.variable), [c])]
  {
    var ga := [Group(Prefix(a.variable), [a])];
    var gb := ga + [Group(Prefix(b.variable), [b])];
    assert Groups([a]) == ga by {
      GroupsSnoc([], a);
      assert [] + [a] == [a];
    }
    assert Groups([a, b]) == gb by {
      GroupsSnoc([a], b);
      assert [a] + [b] == [a, b];
    }
    assert Groups([a, b, c]) == gb + [Group(Prefix(c.variable), [c])] by {
      GroupsSnoc([a, b], c);
      assert [a, b] + [c] == [a, b, c];
    }
  }

  // ---------------------------------------------------------------------------
  // One dataset per group
  // ---------------------------------------------------------------------------

  const FixedColumns: seq<string> := ["Country", "State", "County", "Year", "Month"]

  /** `'%s' % unit`: a `NULL` unit is written `None`. */
  function UnitText(unit: Option<string>): string
  {
    match unit
    case Some(u) => u
    case None => "None"
  }

  /** `"%s (%s)" % (variable, unit)`. */
  function Label(v: Indicator): string
  {
    v.variable + " (" + UnitText(v.unit) + ")"
  }

  /** The CSV header: the five fixed columns, then one label per variable in order. */
  function Header(variables: seq<Indicator>): (r: seq<string>)
    ensures |r| == |FixedColumns| + |variables| && r[..|FixedColumns|] == FixedColumns
    ensures forall k :: 0 <= k < |variables| ==> r[|FixedColumns| + k] == Label(variables[k])
  {
    FixedColumns + seq(|variables|, k requires 0 <= k < |variables| => Label(variables[k]))
  }

  function VariableKey(nb: nat): string { "variable" + Decimal(nb) }

  function UnitKey(nb: nat): string { "unit" + Decimal(nb) }

  /** A unit as a query parameter: `NULL` stays `NULL`. */
  function UnitValue(unit: Option<string>): Value
  {
    match unit
    case Some(u) => Str(u)
    case None => Null
  }

  /** The query parameters after the `enumerate(variables)` loop has seen all of `variables`. */
  function ParamsOf(variables: seq<Indicator>): Dict
  {
    if variables == [] then map[]
    else
      var nb := |variables| - 1;
      ParamsOf(variables[..nb])[VariableKey(nb) := Str(variables[nb].variable)][UnitKey(nb) := UnitValue(variables[nb].unit)]
  }

  /** Parameter names of different positions, or of a variable and a unit, never clash. */
  lemma KeysDistinct(a: nat, b: nat)
    ensures VariableKey(a) != UnitKey(b)
    ensures VariableKey(a) == VariableKey(b) ==> a == b
    ensures UnitKey(a) == UnitKey(b) ==> a == b
  {
    assert VariableKey(a)[0] == 'v' && UnitKey(b)[0] == 'u';
    if VariableKey(a) == VariableKey(b) {
      assert Decimal(a) == VariableKey(a)[8..] == VariableKey(b)[8..] == Decimal(b);
      DecimalInjective(a, b);
    }
    if UnitKey(a) == UnitKey(b) {
      assert Decimal(a) == UnitKey(a)[4..] == UnitKey(b)[4..] == Decimal(b);
      DecimalInjective(a, b);
    }
  }

  /** The names `variable<nb>` and `unit<nb>` for the positions below `n`. */
  function ParamNames(n: nat): set<string>
  {
    (set nb | 0 <= nb < n :: VariableKey(nb)) + (set nb | 0 <= nb < n :: UnitKey(nb))
  }

  lemma ParamNamesSnoc(n: nat)
    ensures ParamNames(n + 1) == ParamNames(n) + {VariableKey(n), UnitKey(n)}
  {
    assert (set nb | 0 <= nb < n + 1 :: VariableKey(nb)) == (set nb | 0 <= nb < n :: VariableKey(nb)) + {VariableKey(n)};
    assert (set nb | 0 <= nb < n + 1 :: UnitKey(nb)) == (set nb | 0 <= nb < n :: UnitKey(nb)) + {UnitKey(n)};
  }

  /** The parameters are named `variable<nb>` and `unit<nb>`, one pair per position. */
  lemma {:induction false} ParamsKeys(variables: seq<Indicator>)
    ensures ParamsOf(variables).Keys == ParamNames(|variables|)
  {
    if variables != [] {
      var n := |variables| - 1;
      ParamsKeys(variables[..n]);
      ParamNamesSnoc(n);
    }
  }

  /** Each position's parameters are bound to that position's variable and unit. */
  lemma {:induction false} ParamsValues(variables: seq<Indicator>)
    ensures var p := ParamsOf(variables);
      forall nb :: 0 <= nb < |variables| ==>
        VariableKey(nb) in p && UnitKey(nb) in p &&
        p[VariableKey(nb)] == Str(variables[nb].variable) && p[UnitKey(nb)] == UnitValue(variables[nb].unit)
  {
    if variables != [] {
      var n := |variables| - 1;
      var init := variables[..n];
      ParamsValues(init);
      var p := ParamsOf(variables);
      forall nb | 0 <= nb < |variables|
        ensures VariableKey(nb) in p && UnitKey(nb) in p
        ensures p[VariableKey(nb)] == Str(variables[nb].variable) && p[UnitKey(nb)] == UnitValue(variables[nb].unit)
      {
        KeysDistinct(n, n);
        if nb < n {
          KeysDistinct(nb, n);
          KeysDistinct(n, nb);
          assert init[nb] == variables[nb];
        }
      }
    }
  }

  /** `e if e is not None else ''`: `NULL` cells become empty strings, the others stay as they are. */
  function CsvRow(row: seq<Value>): (r: seq<Value>)
    ensures |r| == |row|
    ensures forall k :: 0 <= k < |row| ==> !r[k].Null? && (row[k].Null? ==> r[k] == Str(""))
    ensures forall k :: 0 <= k < |row| && !row[k].Null? ==> r[k] == row[k]
  {
    seq(|row|, k requires 0 <= k < |row| => if row[k].Null? then Str("") else row[k])
  }

  function CsvRows(rows: seq<seq<Value>>): (r: seq<seq<Value>>)
    ensures |r| == |rows| && forall k :: 0 <= k < |rows| ==> r[k] == CsvRow(rows[k])
  {
    seq(|rows|, k requires 0 <= k < |rows| => CsvRow(rows[k]))
  }

  /** The dataset `make_indicator_dataset` records for a group whose query returned `rows`. */
  function DatasetOf(id: string, prefix: string, variables: seq<Indicator>, rows: seq<seq<Value>>): IndicatorDataset
  {
    IndicatorDataset(
      id,
      map["uaz_indicators_variable_prefix" := Str(prefix)],
      map["name" := Str(prefix)],
      Header(variables),
      ParamsOf(variables),
      CsvRows(rows))
  }

  /** The parameter loop of `make_indicator_dataset`. */
  method BuildParams(variables: seq<Indicator>) returns (params: Dict)
    ensures params == ParamsOf(variables)
  {
    params := map[];
    for nb := 0 to |variables|
      invariant params == ParamsOf(variables[..nb])
    {
      assert variables[..nb + 1][..nb] == variables[..nb];
      params := params[VariableKey(nb) := Str(variables[nb].variable)];
      params := params[UnitKey(nb) := UnitValue(variables[nb].unit)];
    }
    assert variables[..|variables|] == variables;
  }

  /** `make_indicator_dataset(conn, prefix, variables)`, with the join query's answer as `rows`. */
  method MakeIndicatorDataset(id: string, prefix: string, variables: seq<Indicator>, rows: seq<seq<Value>>)
    returns (d: IndicatorDataset)
    ensures d == DatasetOf(id, prefix, variables, rows)
  {
    var params := BuildParams(variables);
    var written: seq<seq<Value>> := [];
    for k := 0 to |rows|
      invariant written == CsvRows(rows[..k])
    {
      written := written + [CsvRow(rows[k])];
    }
    assert rows[..|rows|] == rows;
    d := IndicatorDataset(
      id,
      map["uaz_indicators_variable_prefix" := Str(prefix)],
      map["name" := Str(prefix)],
      Header(variables),
      params,
      written);
  }

  /**
   * The loop state of `discover_indicators` after it has grouped some variables into `groups`:
   * `current_prefix` and `variables` describe the open last group, and `calls` lists the groups
   * already passed to `make_indicator_dataset`.
   */
  ghost predicate Tracks(groups: seq<Group>, currentPrefix: Option<string>, variables: seq<Indicator>, calls: seq<Group>)
  {
    if groups == [] then currentPrefix.None? && variables == [] && calls == []
    else
      var last := groups[|groups| - 1];
      && currentPrefix == Some(last.prefix)
      && variables == last.variables != []
      && calls == groups[..|groups| - 1]
  }

  /** One pass of the loop body of `discover_indicators`, for the variable `x`. */
  method ConsumeVariable(
    currentPrefix: Option<string>, variables: seq<Indicator>, calls: seq<Group>, x: Indicator, ghost groups: seq<Group>)
    returns (currentPrefix': Option<string>, variables': seq<Indicator>, calls': seq<Group>)
    requires Tracks(groups, currentPrefix, variables, calls)
    ensures Tracks(AddVariable(groups, x), currentPrefix', variables', calls')
  {
    AddVariableLast(groups, x);
    var prefix := Prefix(x.variable);
    currentPrefix', variables', calls' := currentPrefix, variables, calls;
    if currentPrefix'.None? {
      currentPrefix' := Some(prefix);
    } else if prefix != currentPrefix'.value {
      calls' := calls' + [Group(currentPrefix'.value, variables')];
      assert groups[..|groups| - 1] + [groups[|groups| - 1]] == groups;
      currentPrefix' := Some(prefix);
      variables' := [];
    }
    variables' := variables' + [x];
  }

  /**
   * `discover_indicators`: the `make_indicator_dataset` calls it makes, as the list of groups passed
   * to them, in order. `indicators` is the `SELECT DISTINCT Variable, Unit ... ORDER BY Variable`
   * answer.
   */
  method DiscoverIndicators(indicators: seq<Indicator>) returns (calls: seq<Group>)
    ensures calls == Groups(indicators)
  {
    var currentPrefix: Option<string> := None;
    var variables: seq<Indicator> := [];
    calls := [];
    ghost var groups: seq<Group> := [];
    var i := 0;
    while i < |indicators|
      invariant 0 <= i <= |indicators| && groups == Groups(indicators[..i])
      invariant Tracks(groups, currentPrefix, variables, calls)
    {
      var x := indicators[i];
      GroupsStep(indicators, i);
      currentPrefix, variables, calls := ConsumeVariable(currentPrefix, variables, calls, x, groups);
      groups := AddVariable(groups, x);
      i := i + 1;
    }
    assert indicators[..i] == indicators;
    if variables != [] {
      calls := calls + [Group(currentPrefix.value, variables)];
      assert groups[..|groups| - 1] + [groups[|groups| - 1]] == groups;
    }
  }
}
