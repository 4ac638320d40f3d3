/**
 * pages/2_Cashflow.py: the credentials check that stops the page when an
 * environment variable is unset, and the month-by-month table. Month keys
 * become `%b-%Y` labels, amounts are summed per label into one row, the
 * columns are put in calendar order by parsing each label back, and every
 * cell is shown as `£{x:,.2f}`.
 */
module Cashflow {
  import opened Wrappers
  import opened Calendar
  import opened Text
  import opened Formats
  import opened Fiscal
  import opened Scaffold

  /** The keys of `credentials_dict`, in the order the dict literal lists them. */
  const CredentialKeys: seq<string> := [
    "type", "project_id", "private_key_id", "private_key", "client_email",
    "client_id", "auth_uri", "token_uri", "auth_provider_x509_cert_url", "client_x509_cert_url"]

  /** The environment variable each key is read from, position by position. */
  const CredentialVariables: seq<string> := [
    "GCP_TYPE", "GCP_PROJECT_ID", "GCP_PRIVATE_KEY_ID", "GCP_PRIVATE_KEY", "GCP_CLIENT_EMAIL",
    "GCP_CLIENT_ID", "GCP_AUTH_URI", "GCP_TOKEN_URI", "GCP_AUTH_PROVIDER_X509_CERT_URL", "GCP_CLIENT_X509_CERT_URL"]

  /** `os.environ.get(name)`: `None` when the variable is unset; an empty value is still a value. */
  function EnvGet(env: map<string, string>, name: string): Option<string> {
    if name in env then Some(env[name]) else None
  }

  /** `[key for key, value in credentials_dict.items() if value is None]`. */
  function MissingKeys(keys: seq<string>, values: seq<Option<string>>): (r: seq<string>)
    requires |keys| == |values|
    ensures |r| <= |keys|
  {
    if keys == [] then []
    else (if values[0].None? then [keys[0]] else []) + MissingKeys(keys[1..], values[1..])
  }

  /** `xs` can be obtained from `ys` by deleting elements: its elements occur in `ys` in the same order. */
  predicate SubsequenceOf(xs: seq<string>, ys: seq<string>)
    decreases |ys|
  {
    xs == [] || (ys != [] && ((xs[0] == ys[0] && SubsequenceOf(xs[1..], ys[1..])) || SubsequenceOf(xs, ys[1..])))
  }

  /**
   * The missing keys are exactly the keys whose value is `None`; there are
   * none exactly when every value is present.
   */
  lemma {:induction false} MissingKeysSpec(keys: seq<string>, values: seq<Option<string>>)
    requires |keys| == |values|
    ensures var r := MissingKeys(keys, values);
      && (forall k :: k in r <==> exists i :: 0 <= i < |keys| && keys[i] == k && values[i].None?)
      && (r == [] <==> forall i :: 0 <= i < |values| ==> values[i].Some?)
  {
    if keys != [] {
      var r := MissingKeys(keys, values);
      var head := if values[0].None? then [keys[0]] else [];
      var tail := MissingKeys(keys[1..], values[1..]);
      MissingKeysSpec(keys[1..], values[1..]);
      assert r == head + tail;
      forall k ensures k in r <==> exists i :: 0 <= i < |keys| && keys[i] == k && values[i].None? {
        if k in tail {
          var i :| 0 <= i < |keys| - 1 && keys[1..][i] == k && values[1..][i].None?;
          assert keys[i + 1] == k && values[i + 1].None?;
        }
        if exists i :: 0 <= i < |keys| && keys[i] == k && values[i].None? {
          var i :| 0 <= i < |keys| && keys[i] == k && values[i].None?;
          if i > 0 {
            assert keys[1..][i - 1] == k && values[1..][i - 1].None?;
          }
        }
      }
      if r == [] {
        forall i | 0 <= i < |values| ensures values[i].Some? {
          if i > 0 {
            assert values[1..][i - 1] == values[i];
          }
        }
      }
    }
  }

  /** The missing keys keep the order of the dict literal. */
  lemma {:induction false} MissingKeysInOrder(keys: seq<string>, values: seq<Option<string>>)
    requires |keys| == |values|
    ensures SubsequenceOf(MissingKeys(keys, values), keys)
  {
    if keys != [] {
      var tail := MissingKeys(keys[1..], values[1..]);
      MissingKeysInOrder(keys[1..], values[1..]);
      if values[0].None? {
        assert MissingKeys(keys, values) == [keys[0]] + tail;
        assert ([keys[0]] + tail)[1..] == tail;
      } else {
        assert MissingKeys(keys, values) == tail;
      }
    }
  }

  /** The values of `credentials_dict`, key by key: each read from its variable. */
  function CredentialValues(env: map<string, string>): (r: seq<Option<string>>)
    ensures |r| == |CredentialKeys|
    ensures forall i :: 0 <= i < |r| ==> (r[i].None? <==> CredentialVariables[i] !in env)
  {
    seq(|CredentialKeys|, i requires 0 <= i < |CredentialKeys| => EnvGet(env, CredentialVariables[i]))
  }

  const MissingPrefix: string := "Missing environment variables: "

  /**
   * `load_credentials`: the credentials as (key, value) pairs in the dict's
   * order, or the message the page shows before it stops, naming the keys
   * whose variable is unset. No client is built in that case.
   */
  function LoadCredentials(env: map<string, string>): (r: Result<seq<(string, string)>, string>)
    ensures r.Err? <==> exists i :: 0 <= i < |CredentialVariables| && CredentialVariables[i] !in env
    ensures r.Ok? ==> |r.value| == |CredentialKeys|
    ensures r.Ok? ==> forall i :: 0 <= i < |CredentialKeys| ==> r.value[i] == (CredentialKeys[i], env[CredentialVariables[i]])
  {
    var values := CredentialValues(env);
    var missing := MissingKeys(CredentialKeys, values);
    MissingKeysSpec(CredentialKeys, values);
    if missing != [] then Err(MissingPrefix + Join(missing))
    else Ok(seq(|CredentialKeys|, i requires 0 <= i < |CredentialKeys| => (CredentialKeys[i], values[i].value)))
  }

  lemma KeysWithoutCommas()
    ensures forall j :: 0 <= j < |CredentialKeys| ==> ',' !in CredentialKeys[j]
  {
    var keys := CredentialKeys;
    assert ',' !in keys[0] && ',' !in keys[1] && ',' !in keys[2] && ',' !in keys[3] && ',' !in keys[4];
    assert ',' !in keys[5] && ',' !in keys[6] && ',' !in keys[7] && ',' !in keys[8] && ',' !in keys[9];
  }

  /**
   * The stop message is the prefix followed by the missing keys joined with
   * `", "`; reading the list back gives exactly the keys whose variable is
   * unset, in the dict's order.
   */
  lemma CredentialsMessage(env: map<string, string>)
    requires LoadCredentials(env).Err?
    ensures var msg := LoadCredentials(env).error;
      && |MissingPrefix| <= |msg| && msg[..|MissingPrefix|] == MissingPrefix
      && var listed := SplitList(msg[|MissingPrefix|..]);
      && listed == MissingKeys(CredentialKeys, CredentialValues(env))
      && SubsequenceOf(listed, CredentialKeys)
      && forall k :: k in listed <==>
           exists i :: 0 <= i < |CredentialKeys| && CredentialKeys[i] == k && CredentialVariables[i] !in env
  {
    var values := CredentialValues(env);
    var missing := MissingKeys(CredentialKeys, values);
    MissingKeysSpec(CredentialKeys, values);
    MissingKeysInOrder(CredentialKeys, values);
    KeysWithoutCommas();
    var msg := LoadCredentials(env).error;
    assert msg == MissingPrefix + Join(missing);
    assert msg[|MissingPrefix|..] == Join(missing);
    forall i | 0 <= i < |missing| ensures ',' !in missing[i] {
      assert missing[i] in missing;
      var j :| 0 <= j < |CredentialKeys| && CredentialKeys[j] == missing[i] && values[j].None?;
    }
    JoinSplitRoundTrip(missing);
  }

  /** A month row after `month_df['month_label'] = month_df['month_year'].dt.strftime('%b-%Y')`. */
  datatype LabelledAmount = LabelledAmount(monthLabel: string, amount: int)

  /** The label column added to the parsed month rows, row by row. */
  function LabelRows(months: seq<MonthAmount>): (r: seq<LabelledAmount>)
    requires forall k :: 0 <= k < |months| ==> ValidYearMonth(months[k].month)
    ensures |r| == |months|
    ensures forall k :: 0 <= k < |r| ==> r[k] == LabelledAmount(MonthLabel(months[k].month), months[k].amount)
    ensures forall k :: 0 <= k < |r| ==> ParseMonthLabel(r[k].monthLabel) == Some(months[k].month)
  {
    assert forall k :: 0 <= k < |months| ==> ParseMonthLabel(MonthLabel(months[k].month)) == Some(months[k].month) by {
      forall k | 0 <= k < |months| {
        MonthLabelRoundTrip(months[k].month);
      }
    }
    seq(|months|, k requires 0 <= k < |months| => LabelledAmount(MonthLabel(months[k].month), months[k].amount))
  }

  function Labels(rows: seq<LabelledAmount>): set<string> {
    set k | 0 <= k < |rows| :: rows[k].monthLabel
  }

  /** `aggfunc='sum'`: the summed amounts of the rows carrying `column`. */
  function SumForLabel(rows: seq<LabelledAmount>, column: string): int {
    if rows == [] then 0 else (if rows[0].monthLabel == column then rows[0].amount else 0) + SumForLabel(rows[1..], column)
  }

  /** `pivot_table(columns='month_label', values='total_amount', aggfunc='sum')`: one column per label, holding its sum. */
  function PivotSums(rows: seq<LabelledAmount>): (r: map<string, int>)
    ensures r.Keys == Labels(rows)
  {
    map l | l in Labels(rows) :: SumForLabel(rows, l)
  }

  /**
   * Since a label names exactly one month, the pivot's sum for a month's
   * label is the sum of the rows of that month.
   */
  lemma {:induction false} LabelSumIsMonthSum(months: seq<MonthAmount>, ym: YearMonth)
    requires forall k :: 0 <= k < |months| ==> ValidYearMonth(months[k].month)
    requires ValidYearMonth(ym)
    ensures SumForLabel(LabelRows(months), MonthLabel(ym)) == SumInMonths(months, {ym})
  {
    if months != [] {
      LabelSumIsMonthSum(months[1..], ym);
      assert LabelRows(months)[1..] == LabelRows(months[1..]);
      MonthLabelInjective(months[0].month, ym);
    }
  }

  /**
   * The sort key of a column: `datetime.strptime(label, '%b-%Y')`, as the
   * month's ordinal. The sort is only given labels that parse; 0 stands in
   * for the others.
   */
  function LabelKey(column: string): int {
    match ParseMonthLabel(column)
    case Some(ym) => Ordinal(ym)
    case None => 0
  }

  /** A column of `remaining` whose label parses to the earliest month. */
  method EarliestColumn(remaining: set<string>) returns (least: string)
    requires remaining != {}
    requires forall c :: c in remaining ==> ParseMonthLabel(c).Some?
    ensures least in remaining
    ensures forall c :: c in remaining ==> LabelKey(least) <= LabelKey(c)
  {
    least :| least in remaining;
    var unseen := remaining - {least};
    while unseen != {}
      invariant unseen <= remaining && least in remaining && least !in unseen
      invariant forall c :: c in remaining && c !in unseen ==> LabelKey(least) <= LabelKey(c)
      decreases |unseen|
    {
      var c :| c in unseen;
      if LabelKey(c) < LabelKey(least) {
        least := c;
      }
      unseen := unseen - {c};
    }
  }

  /**
   * `sorted(pivot_table.columns, key=lambda x: datetime.strptime(x, '%b-%Y'))`:
   * every column once, by the month its label parses to, not alphabetically.
   * Each round takes a column with the least key from those left.
   */
  method SortChronologically(columns: set<string>) returns (sorted: seq<string>)
    requires forall c :: c in columns ==> ParseMonthLabel(c).Some?
    ensures forall c :: c in sorted <==> c in columns
    ensures forall i, j :: 0 <= i < j < |sorted| ==> sorted[i] != sorted[j]
    ensures forall i, j :: 0 <= i < j < |sorted| ==> LabelKey(sorted[i]) <= LabelKey(sorted[j])
  {
    var remaining := columns;
    sorted := [];
    while remaining != {}
      invariant remaining <= columns
      invariant forall c :: c in sorted <==> c in columns && c !in remaining
      invariant forall i, j :: 0 <= i < j < |sorted| ==> sorted[i] != sorted[j]
      invariant forall i, j :: 0 <= i < j < |sorted| ==> LabelKey(sorted[i]) <= LabelKey(sorted[j])
      invariant forall i, c :: 0 <= i < |sorted| && c in remaining ==> LabelKey(sorted[i]) <= LabelKey(c)
      decreases |remaining|
    {
      var least := EarliestColumn(remaining);
      sorted := sorted + [least];
      remaining := remaining - {least};
    }
  }

  /** The table under "Month-by-Month Totals": nothing when the query returned no row, else one row of (column, cell) pairs. */
  datatype MonthlyTable = NoMonthlyData | Table(cells: seq<(string, string)>)

  /** `applymap(lambda x: f"£{x:,.2f}")` over the reordered pivot row. */
  function Cells(columns: seq<string>, pivot: map<string, int>): (r: seq<(string, string)>)
    requires forall i :: 0 <= i < |columns| ==> columns[i] in pivot
    ensures |r| == |columns|
    ensures forall i :: 0 <= i < |r| ==> r[i] == (columns[i], FormatPounds(pivot[columns[i]]))
    ensures forall i :: 0 <= i < |r| ==> ParsePounds(r[i].1) == Some(pivot[columns[i]])
  {
    assert forall i :: 0 <= i < |columns| ==> ParsePounds(FormatPounds(pivot[columns[i]])) == Some(pivot[columns[i]]) by {
      forall i | 0 <= i < |columns| {
        FormatPoundsRoundTrip(pivot[columns[i]]);
      }
    }
    seq(|columns|, i requires 0 <= i < |columns| => (columns[i], FormatPounds(pivot[columns[i]])))
  }

  /** Column `c` is the `%b-%Y` label of month `ym`. */
  predicate IsLabelOf(c: string, ym: YearMonth)
    requires ValidYearMonth(ym)
  {
    c == MonthLabel(ym)
  }

  /** The column names of a table row. */
  function ColumnNames(cells: seq<(string, string)>): set<string> {
    set i | 0 <= i < |cells| :: cells[i].0
  }

  /** The labels of the months the rows carry. */
  function MonthLabels(months: seq<MonthAmount>): set<string>
    requires forall k :: 0 <= k < |months| ==> ValidYearMonth(months[k].month)
  {
    set k | 0 <= k < |months| :: MonthLabel(months[k].month)
  }

  /**
   * What the month-by-month table must show for the parsed rows: a column for
   * each month some row has and for no other, in strictly increasing month
   * order, each cell the currency text of the sum of that month's rows.
   */
  predicate PivotOf(months: seq<MonthAmount>, cells: seq<(string, string)>)
    requires forall k :: 0 <= k < |months| ==> ValidYearMonth(months[k].month)
  {
    && ColumnNames(cells) == MonthLabels(months)
    && (forall i, k :: 0 <= i < |cells| && 0 <= k < |months| && IsLabelOf(cells[i].0, months[k].month) ==>
          cells[i].1 == FormatPounds(SumInMonths(months, {months[k].month})))
    && (forall i, j, ki, kj ::
          0 <= i < j < |cells| && 0 <= ki < |months| && 0 <= kj < |months| &&
          IsLabelOf(cells[i].0, months[ki].month) && IsLabelOf(cells[j].0, months[kj].month) ==>
            Ordinal(months[ki].month) < Ordinal(months[kj].month))
  }

  /** The pivot's columns, put in chronological order and formatted, make the table `PivotOf` describes. */
  lemma SortedPivotIsTable(months: seq<MonthAmount>, columns: seq<string>)
    requires forall k :: 0 <= k < |months| ==> ValidYearMonth(months[k].month)
    requires forall c :: c in columns <==> c in Labels(LabelRows(months))
    requires forall i :: 0 <= i < |columns| ==> ParseMonthLabel(columns[i]).Some?
    requires forall i, j :: 0 <= i < j < |columns| ==> columns[i] != columns[j]
    requires forall i, j :: 0 <= i < j < |columns| ==> LabelKey(columns[i]) <= LabelKey(columns[j])
    ensures forall i :: 0 <= i < |columns| ==> columns[i] in PivotSums(LabelRows(months))
    ensures PivotOf(months, Cells(columns, PivotSums(LabelRows(months))))
  {
    var labelled := LabelRows(months);
    var pivot := PivotSums(labelled);
    assert forall i :: 0 <= i < |columns| ==> columns[i] in pivot;
    var cells := Cells(columns, pivot);
    PivotColumns(months, columns, cells);
    PivotCells(months, columns, cells);
    PivotOrder(months, columns, cells);
  }

  lemma PivotColumns(months: seq<MonthAmount>, columns: seq<string>, cells: seq<(string, string)>)
    requires forall k :: 0 <= k < |months| ==> ValidYearMonth(months[k].month)
    requires forall c :: c in columns <==> c in Labels(LabelRows(months))
    requires |cells| == |columns| && forall i :: 0 <= i < |cells| ==> cells[i].0 == columns[i]
    ensures ColumnNames(cells) == MonthLabels(months)
  {
    var labelled := LabelRows(months);
    forall c | c in ColumnNames(cells) ensures c in MonthLabels(months) {
      var i :| 0 <= i < |cells| && cells[i].0 == c;
      assert columns[i] in Labels(labelled);
      var k :| 0 <= k < |labelled| && labelled[k].monthLabel == columns[i];
      assert c == MonthLabel(months[k].month);
    }
    forall c | c in MonthLabels(months) ensures c in ColumnNames(cells) {
      var k :| 0 <= k < |months| && c == MonthLabel(months[k].month);
      assert labelled[k].monthLabel in Labels(labelled);
      var i :| 0 <= i < |columns| && columns[i] == labelled[k].monthLabel;
      assert cells[i].0 == c;
    }
  }

  lemma PivotCells(months: seq<MonthAmount>, columns: seq<string>, cells: seq<(string, string)>)
    requires forall k :: 0 <= k < |months| ==> ValidYearMonth(months[k].month)
    requires forall i :: 0 <= i < |columns| ==> columns[i] in PivotSums(LabelRows(months))
    requires cells == Cells(columns, PivotSums(LabelRows(months)))
    ensures forall i, k :: 0 <= i < |cells| && 0 <= k < |months| && IsLabelOf(cells[i].0, months[k].month) ==>
      cells[i].1 == FormatPounds(SumInMonths(months, {months[k].month}))
  {
    forall k | 0 <= k < |months| {
      LabelSumIsMonthSum(months, months[k].month);
    }
  }

  lemma PivotOrder(months: seq<MonthAmount>, columns: seq<string>, cells: seq<(string, string)>)
    requires forall k :: 0 <= k < |months| ==> ValidYearMonth(months[k].month)
    requires forall i :: 0 <= i < |columns| ==> ParseMonthLabel(columns[i]).Some?
    requires forall i, j :: 0 <= i < j < |columns| ==> columns[i] != columns[j]
    requires forall i, j :: 0 <= i < j < |columns| ==> LabelKey(columns[i]) <= LabelKey(columns[j])
    requires |cells| == |columns| && forall i :: 0 <= i < |cells| ==> cells[i].0 == columns[i]
    ensures forall i, j, ki, kj ::
      0 <= i < j < |cells| && 0 <= ki < |months| && 0 <= kj < |months| &&
      IsLabelOf(cells[i].0, months[ki].month) && IsLabelOf(cells[j].0, months[kj].month) ==>
        Ordinal(months[ki].month) < Ordinal(months[kj].month)
  {
    forall i, j, ki, kj |
      0 <= i < j < |cells| && 0 <= ki < |months| && 0 <= kj < |months| &&
      IsLabelOf(cells[i].0, months[ki].month) && IsLabelOf(cells[j].0, months[kj].month)
      ensures Ordinal(months[ki].month) < Ordinal(months[kj].month)
    {
      var a, b := months[ki].month, months[kj].month;
      MonthLabelRoundTrip(a);
      MonthLabelRoundTrip(b);
      assert LabelKey(columns[i]) == Ordinal(a) && LabelKey(columns[j]) == Ordinal(b);
      OrdinalOrder(a, b);
    }
  }

  /** Every label the rows carry parses back with `%b-%Y`. */
  lemma LabelsParse(months: seq<MonthAmount>)
    requires forall k :: 0 <= k < |months| ==> ValidYearMonth(months[k].month)
    ensures forall c :: c in Labels(LabelRows(months)) ==> ParseMonthLabel(c).Some?
  {
    var labelled := LabelRows(months);
    forall c | c in Labels(labelled) ensures ParseMonthLabel(c).Some? {
      var k :| 0 <= k < |labelled| && labelled[k].monthLabel == c;
      MonthLabelRoundTrip(months[k].month);
    }
  }

  /**
   * The month-by-month table: no rows give no table; a key that
   * `pd.to_datetime(format='%Y-%m')` cannot read raises `ValueError`;
   * otherwise the labelled rows are pivoted, the columns sorted by month and
   * every cell formatted as currency.
   */
  method MonthlyTotals(rows: seq<KeyedAmount>) returns (r: Result<MonthlyTable, PageError>)
    ensures rows == [] <==> r == Ok(NoMonthlyData)
    ensures r.Err? <==> rows != [] && ParseMonthRows(rows).None?
    ensures r.Err? ==> r.error == ValueError
    ensures r.Ok? && rows != [] ==> r.value.Table? && PivotOf(ParseMonthRows(rows).value, r.value.cells)
  {
    if rows == [] {
      return Ok(NoMonthlyData);
    }
    var parsed := ParseMonthRows(rows);
    if parsed.None? {
      return Err(ValueError);
    }
    var months := parsed.value;
    var labelled := LabelRows(months);
    var pivot := PivotSums(labelled);
    LabelsParse(months);
    var columns := SortChronologically(pivot.Keys);
    SortedPivotIsTable(months, columns);
    r := Ok(Table(Cells(columns, pivot)));
  }

  /** What the page ends up showing below its title. */
  datatype CashflowView =
    | Stopped(message: string)
    | Failed(error: PageError)
    | Shown(start: Date, monthly: MonthlyTable)

  /**
   * `main` of the page: the credentials check stops it before any query; then
   * the fiscal start (1 October on or before today) bounds the month query,
   * whose rows are a parameter here, and the month-by-month table is built.
   */
  method CashflowPage(env: map<string, string>, today: Date, monthRows: seq<KeyedAmount>) returns (r: CashflowView)
    requires ValidDate(today)
    ensures LoadCredentials(env).Err? ==> r == Stopped(LoadCredentials(env).error)
    ensures r.Stopped? <==> LoadCredentials(env).Err?
    ensures r.Failed? <==> LoadCredentials(env).Ok? && (FiscalStart(today).None? || (monthRows != [] && ParseMonthRows(monthRows).None?))
    ensures LoadCredentials(env).Ok? && FiscalStart(today).None? ==> r == Failed(ValueError)
    ensures r.Shown? <==>
      LoadCredentials(env).Ok? && FiscalStart(today).Some? && (monthRows == [] || ParseMonthRows(monthRows).Some?)
    ensures r.Failed? ==> r.error == ValueError
    ensures r.Shown? ==> FiscalStart(today) == Some(r.start)
    ensures r.Shown? ==> (r.monthly.NoMonthlyData? <==> monthRows == [])
    ensures r.Shown? && monthRows != [] ==> r.monthly.Table? && PivotOf(ParseMonthRows(monthRows).value, r.monthly.cells)
  {
    var credentials := LoadCredentials(env);
    if credentials.Err? {
      return Stopped(credentials.error);
    }
    var start := FiscalStart(today);
    if start.None? {
      return Failed(ValueError);
    }
    var monthly := MonthlyTotals(monthRows);
    match monthly
    case Err(e) => r := Failed(e);
    case Ok(table) => r := Shown(start.value, table);
  }
}
