/** The rows `loadDetailsData` writes into the details table body, as records
    rather than markup. */
module Details {
  import opened Options
  import opened Payloads
  import opened Fixed

  /** One `<tr>`: an item's three cells, or the single "No data available" row. */
  datatype Row = ItemRow(name: Value, value: Value, metric: string) | NoDataRow

  /** `item.metric?.toFixed(2) || 'N/A'`. */
  function MetricCell(metric: Option<real>): (cell: string)
    ensures cell == "N/A" <==> metric.None?
    ensures metric.Some? ==> cell == ToFixed2(metric.value)
  {
    match metric
    case None => "N/A"
    case Some(x) => ToFixed2(x)
  }

  /** `items.map(...)`: one row per item, in payload order. */
  function ItemRows(items: seq<Item>): (rows: seq<Row>)
    ensures |rows| == |items|
    ensures forall i :: 0 <= i < |items| ==>
      rows[i] == ItemRow(items[i].name, items[i].value, MetricCell(items[i].metric))
  {
    if items == [] then []
    else
      var rest := ItemRows(items[1..]);
      assert forall i :: 1 <= i < |items| ==> items[1..][i - 1] == items[i];
      [ItemRow(items[0].name, items[0].value, MetricCell(items[0].metric))] + rest
  }

  /** The new contents of the table body: the item rows when there is at least
      one item, and otherwise exactly one placeholder row. */
  function DetailRows(items: Option<seq<Item>>): (rows: seq<Row>)
    ensures |rows| >= 1
    ensures rows == [NoDataRow] <==> items.None? || items.value == []
    ensures NoDataRow in rows <==> items.None? || items.value == []
    ensures items.Some? && items.value != [] ==> rows == ItemRows(items.value)
  {
    match items
    case Some(list) =>
      if |list| > 0 then
        var rows := ItemRows(list);
        assert rows[0].ItemRow?;
        assert forall i :: 0 <= i < |rows| ==> rows[i].ItemRow?;
        rows
      else [NoDataRow]
    case None => [NoDataRow]
  }

  /** The example payload `{items: [{name: "A", value: 5, metric: 3.14159}]}`
      gives one row whose metric reads `3.14`; an item without a metric reads `N/A`. */
  lemma DetailRowsExamples()
    ensures DetailRows(Some([Item(Text("A"), Num(5.0), Some(3.14159))])) == [ItemRow(Text("A"), Num(5.0), "3.14")]
    ensures DetailRows(Some([Item(Text("B"), Num(1.0), None)])) == [ItemRow(Text("B"), Num(1.0), "N/A")]
    ensures DetailRows(Some([])) == [NoDataRow]
  {
    ToFixed2Examples();
  }
}
