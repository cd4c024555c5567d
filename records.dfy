/** The three spreadsheets the BOSCH page reads, as header plus rows, and the
    records it builds from them. Only the columns the page uses are fields of
    a row; any other column passes through untouched and never reaches the
    output. */
module Records {
  import opened Cells

  /** One uploaded sheet: its header labels and its rows. */
  datatype Table<R> = Table(columns: seq<string>, rows: seq<R>)

  /** A row of the balance report. */
  datatype BalanceRow = BalanceRow(note: Cell, group: Cell, boschNo: Cell, total: Option<real>)

  /** A row of the inbound-goods report. */
  datatype InboundRow = InboundRow(party: Cell, orderNo: Cell, productCode: Cell, deliveredQty: Option<real>)

  /** A row of the order-lines report. */
  datatype OrderLine = OrderLine(orderNo: Cell, stockCode: Cell, orderedQty: Option<real>, remainingQty: Option<real>)

  /** The four columns the join writes into a balance row. */
  datatype OrderFields = OrderFields(orderNo: Cell, stockCode: Cell, orderedQty: Option<real>, remainingQty: Option<real>)

  /** A row of the working balance table once its Bosch numbers are cleaned.
      `key` and `order` stand for columns the run adds later: `None` until
      the composite key, respectively the joined order fields, are written. */
  datatype Entry = Entry(
    note: Cell,
    group: Cell,
    boschNo: string,
    total: Option<real>,
    key: Option<string>,
    order: Option<OrderFields>)

  /** One record of the output list (one JSON object). */
  datatype OrderRecord = OrderRecord(
    note: string,
    depotCode: string,
    group: string,
    boschNo: string,
    sutun1: string,
    estimatedDelivery: string,
    total: real)

  const BalanceColumns: seq<string> :=
    ["Sipariş Notu", "Ürün Grubu", "Bosch No", "Fatura ve Sevk Edilmemiş Toplam"]
  const InboundColumns: seq<string> := ["Cari", "Sipariş No", "Ürün Kodu", "İrsaliye Miktarı"]
  const OrderColumns: seq<string> := ["SIPARIS_NO", "STOK_KODU", "SIPARIS_MIKTARI", "KALAN_MIKTAR"]

  /** The required columns absent from a header, in the order they are
      required (the list comprehension that guards each sheet). */
  function MissingColumns(required: seq<string>, header: seq<string>): (m: seq<string>)
    ensures forall c :: c in m <==> c in required && c !in header
    ensures |m| <= |required|
    ensures m == [] <==> forall c :: c in required ==> c in header
  {
    if required == [] then []
    else
      var rest := MissingColumns(required[1..], header);
      assert required == [required[0]] + required[1..];
      if required[0] in header then rest else [required[0]] + rest
  }
}
