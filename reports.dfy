/** The item-movement report of the Reports page: the per-row net change, how
    it is labelled, the report totals and the column list. */
module Reports {
  import opened JsBuiltins

  /** One row of an item-movement report. */
  datatype MovementRow = MovementRow(part: string, added: int, issued: int, returned: int, scrapped: int)

  /** The `net` column: stock in minus stock out. */
  function Net(row: MovementRow): int {
    row.added + row.returned - row.issued - row.scrapped
  }

  /** `{net >= 0 ? '+' : ''}{net}`. */
  function NetLabel(net: int): string {
    (if net >= 0 then "+" else "") + IntToString(net)
  }

  /** `net >= 0 ? 'var(--success)' : 'var(--error)'`. */
  function NetColor(net: int): string {
    if net >= 0 then "var(--success)" else "var(--error)"
  }

  /** The label carries a sign: '+' exactly when the net change is not
      negative, '-' otherwise, and the success colour goes with the '+'. */
  lemma NetLabelSign(net: int)
    ensures NetLabel(net)[0] == '+' <==> net >= 0
    ensures NetLabel(net)[0] == '-' <==> net < 0
    ensures NetColor(net) == "var(--success)" <==> NetLabel(net)[0] == '+'
  {
  }

  /** The label is a faithful numeral: `parseInt` reads the net change back from it. */
  lemma NetLabelReadsBack(net: int)
    ensures ParseInt(NetLabel(net)) == Some(net)
  {
    if net < 0 {
      ParseIntOfIntToString(net);
    } else {
      ParseIntOfPlusNatToString(net);
    }
  }

  /** Two different net changes get different labels. */
  lemma NetLabelInjective(a: int, b: int)
    requires NetLabel(a) == NetLabel(b)
    ensures a == b
  {
    NetLabelReadsBack(a);
    NetLabelReadsBack(b);
  }

  datatype Field = Added | Issued | Returned | Scrapped

  function FieldOf(row: MovementRow, f: Field): int {
    match f
    case Added => row.added
    case Issued => row.issued
    case Returned => row.returned
    case Scrapped => row.scrapped
  }

  /** `report.data.reduce((sum, item) => sum + item[f], 0)`. */
  function Total(data: seq<MovementRow>, f: Field): int {
    if data == [] then 0 else Total(data[..|data| - 1], f) + FieldOf(data[|data| - 1], f)
  }

  datatype Stats = Stats(totalAdded: int, totalIssued: int, totalReturned: int, totalScrapped: int)

  /** `getReportStats`: the four sums for an item-movement report, zeros otherwise. */
  function ReportStats(reportType: string, data: seq<MovementRow>): Stats {
    if reportType == "item_movement" then
      Stats(Total(data, Added), Total(data, Issued), Total(data, Returned), Total(data, Scrapped))
    else Stats(0, 0, 0, 0)
  }

  /** The sum of the `net` column. */
  function NetTotal(data: seq<MovementRow>): int {
    if data == [] then 0 else NetTotal(data[..|data| - 1]) + Net(data[|data| - 1])
  }

  /** The net column adds up to the report totals: added plus returned minus
      issued minus scrapped. */
  lemma {:induction false} NetTotalMatchesStats(data: seq<MovementRow>)
    ensures var s := ReportStats("item_movement", data);
      NetTotal(data) == s.totalAdded + s.totalReturned - s.totalIssued - s.totalScrapped
  {
    if data != [] {
      NetTotalMatchesStats(data[..|data| - 1]);
    }
  }

  /** Each total of a report is the sum of that field over its rows, so it
      grows by exactly the field of a row added at the end. */
  lemma TotalAppend(data: seq<MovementRow>, row: MovementRow, f: Field)
    ensures Total(data + [row], f) == Total(data, f) + FieldOf(row, f)
  {
    assert (data + [row])[..|data|] == data;
  }

  /** The totals of a report split into parts are the sums of the parts' totals. */
  lemma {:induction false} TotalConcat(a: seq<MovementRow>, b: seq<MovementRow>, f: Field)
    ensures Total(a + b, f) == Total(a, f) + Total(b, f)
  {
    if b != [] {
      var last := |b| - 1;
      TotalConcat(a, b[..last], f);
      assert a + b == (a + b[..last]) + [b[last]];
      TotalAppend(a + b[..last], b[last], f);
    } else {
      assert a + b == a;
    }
  }

  /** Any report type other than item movement shows all-zero totals. */
  lemma OtherReportsHaveZeroStats(reportType: string, data: seq<MovementRow>)
    requires reportType != "item_movement"
    ensures ReportStats(reportType, data) == Stats(0, 0, 0, 0)
  {
  }

  /** `getReportColumns(reportType)`, by column key. */
  function ReportColumns(reportType: string): (keys: seq<string>)
    ensures reportType != "item_movement" ==> keys == []
    ensures reportType == "item_movement" ==> |keys| == 6 && keys[5] == "net"
  {
    if reportType == "item_movement" then ["part", "added", "issued", "returned", "scrapped", "net"]
    else []
  }
}
