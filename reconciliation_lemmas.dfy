/** Properties of the BOSCH reconciliation that span several stages: the
    schema guard, the contents of the working table, the row accounting, the
    shape of every output record, the output's independence from the join,
    and the empty-result case of the code as written. */
module ReconciliationLemmas {
  import opened Cells
  import opened BoschCodes
  import opened Records
  import opened Reconciliation
  import opened Sequences

  /** All three sheets are uploaded and each has every column it needs. */
  predicate SchemaOk(balance: Option<Table<BalanceRow>>, inbound: Option<Table<InboundRow>>,
                     orders: Option<Table<OrderLine>>)
  {
    && balance.Some? && inbound.Some? && orders.Some?
    && (forall c :: c in BalanceColumns ==> c in balance.value.columns)
    && (forall c :: c in InboundColumns ==> c in inbound.value.columns)
    && (forall c :: c in OrderColumns ==> c in orders.value.columns)
  }

  /** A missing sheet or a missing column on any of the three sheets aborts
      the run, and nothing else does. */
  lemma AbortsExactlyOnSchemaError(balance: Option<Table<BalanceRow>>, inbound: Option<Table<InboundRow>>,
                                   orders: Option<Table<OrderLine>>, strict: string -> bool)
    ensures Run(balance, inbound, orders, strict).Aborted? <==> !SchemaOk(balance, inbound, orders)
    ensures Returned(Run(balance, inbound, orders, strict)).None? <==> !SchemaOk(balance, inbound, orders)
  {
  }

  /** The failure names the first sheet, in the order the run reads them,
      that lacks a column, and exactly the columns it lacks. */
  lemma FailureNamesMissingColumns(balance: Table<BalanceRow>, inbound: Option<Table<InboundRow>>,
                                   orders: Option<Table<OrderLine>>, strict: string -> bool, c: string)
    requires inbound.Some? && orders.Some?
    requires c in BalanceColumns && c !in balance.columns
    ensures Run(Some(balance), inbound, orders, strict).Aborted?
    ensures Run(Some(balance), inbound, orders, strict).failure.ColumnsMissing?
    ensures Run(Some(balance), inbound, orders, strict).failure.sheet == BalanceReport
    ensures c in Run(Some(balance), inbound, orders, strict).failure.missing
  {
  }

  /** `e` is what the balance row `r` becomes in the working table. */
  predicate FromBalanceRow(e: Entry, r: BalanceRow) {
    && e.note == r.note
    && e.boschNo == ProcessBoschCode(r.boschNo)
    && e.total == r.total
    && (r.group == Text(Depot) ==> e.group == Text(Depot))
    && (r.group != Text(Depot) ==> e.group == Text(Supplier))
  }

  /** `e` is the DEPO row the selected inbound row `r` becomes. */
  predicate FromInboundRow(e: Entry, r: InboundRow) {
    && e.note == r.orderNo
    && e.group == Text(Depot)
    && e.boschNo == ProcessBoschCode(r.productCode)
    && e.total == r.deliveredQty
  }

  /** `e` carries the composite key of its own note and number, and one of
      the two group tags. */
  predicate KeyedAndTagged(e: Entry) {
    && e.key == Some(CompositeKey(e.note, Text(e.boschNo)))
    && (e.group == Text(Depot) || e.group == Text(Supplier))
  }

  /** Row `i` of the working table is row `i` of the appended table, keyed
      and re-tagged. */
  lemma WorkingTableAt(s: seq<Entry>, i: nat)
    requires i < |s|
    ensures Tagged(Keyed(s))[i] == Retag(WithKey(s[i]))
  {
  }

  lemma AppendedInboundAt(cleaned: seq<Entry>, sel: seq<InboundRow>, k: nat)
    requires k < |sel|
    ensures (cleaned + InboundEntries(sel))[|cleaned| + k] == InboundEntry(sel[k])
  {
  }

  lemma AppendedBalanceAt(balance: seq<BalanceRow>, sel: seq<InboundRow>, i: nat)
    requires i < |balance|
    ensures (CleanedEntries(balance) + InboundEntries(sel))[i] == CleanedEntries(balance)[i]
  {
  }

  /** The working table starts with the balance rows, in order, each with
      its Bosch number cleaned and its group re-tagged. */
  lemma BalanceRowsInWorkingTable(balance: seq<BalanceRow>, selected: seq<InboundRow>)
    ensures var t := WorkingTable(balance, selected);
      forall i :: 0 <= i < |balance| ==> FromBalanceRow(t[i], balance[i])
  {
    var appended := CleanedEntries(balance) + InboundEntries(selected);
    forall i | 0 <= i < |balance| ensures FromBalanceRow(WorkingTable(balance, selected)[i], balance[i]) {
      WorkingTableAt(appended, i);
      AppendedBalanceAt(balance, selected, i);
    }
  }

  /** After them come the selected inbound rows, in order, one DEPO row each. */
  lemma InboundRowsInWorkingTable(balance: seq<BalanceRow>, selected: seq<InboundRow>)
    ensures var t := WorkingTable(balance, selected);
      forall k :: 0 <= k < |selected| ==> FromInboundRow(t[|balance| + k], selected[k])
  {
    forall k | 0 <= k < |selected|
      ensures FromInboundRow(WorkingTable(balance, selected)[|balance| + k], selected[k])
    {
      InboundRowAt(balance, selected, k);
      InboundRowBecomes(selected[k]);
    }
  }

  lemma InboundRowAt(balance: seq<BalanceRow>, selected: seq<InboundRow>, k: nat)
    requires k < |selected|
    ensures WorkingTable(balance, selected)[|balance| + k] == Retag(WithKey(InboundEntry(selected[k])))
  {
    var cleaned := CleanedEntries(balance);
    assert |cleaned| == |balance|;
    AppendedRowAt(cleaned, selected, k);
  }

  lemma AppendedRowAt(cleaned: seq<Entry>, selected: seq<InboundRow>, k: nat)
    requires k < |selected|
    ensures Tagged(Keyed(cleaned + InboundEntries(selected)))[|cleaned| + k] == Retag(WithKey(InboundEntry(selected[k])))
  {
    WorkingTableAt(cleaned + InboundEntries(selected), |cleaned| + k);
    AppendedInboundAt(cleaned, selected, k);
  }

  lemma InboundRowBecomes(r: InboundRow)
    ensures FromInboundRow(Retag(WithKey(InboundEntry(r))), r)
  {
  }

  /** Every row of the working table carries the composite key of its own
      note and number, and the DEPO or TEDARİKÇİ tag. */
  lemma WorkingTableKeyedAndTagged(balance: seq<BalanceRow>, selected: seq<InboundRow>)
    ensures var t := WorkingTable(balance, selected);
      forall i :: 0 <= i < |t| ==> KeyedAndTagged(t[i])
  {
    var appended := CleanedEntries(balance) + InboundEntries(selected);
    forall i | 0 <= i < |appended| ensures KeyedAndTagged(WorkingTable(balance, selected)[i]) {
      WorkingTableAt(appended, i);
    }
  }

  /** Two entries agree on every column the output reads. */
  predicate SameOutputColumns(a: Entry, b: Entry) {
    a.note == b.note && a.group == b.group && a.boschNo == b.boschNo && a.total == b.total
  }

  /** Two tables that agree on every column the output reads (note, group,
      Bosch number, total) give the same output, whatever their keys and
      joined order fields. */
  lemma ReportIgnoresJoinColumns(s1: seq<Entry>, s2: seq<Entry>)
    requires |s1| == |s2|
    requires forall i :: 0 <= i < |s1| ==> SameOutputColumns(s1[i], s2[i])
    ensures Report(s1) == Report(s2)
  {
    forall i | 0 <= i < |s1| ensures HasDepot(s1[i]) == HasDepot(s2[i]) && ToRecord(s1[i]) == ToRecord(s2[i]) {
      SameOutputColumnsSameRecord(s1[i], s2[i]);
    }
    MapFilterPointwise(s1, s2, HasDepot, ToRecord);
  }

  lemma SameOutputColumnsSameRecord(a: Entry, b: Entry)
    requires SameOutputColumns(a, b)
    ensures HasDepot(a) == HasDepot(b) && ToRecord(a) == ToRecord(b)
  {
  }

  /** Joining changes nothing the output reads. */
  lemma JoinKeepsOutputColumns(t: seq<Entry>, lines: seq<OrderLine>)
    requires forall i :: 0 <= i < |t| ==> t[i].key.Some?
    ensures forall i :: 0 <= i < |t| ==> SameOutputColumns(JoinedAll(t, lines)[i], t[i])
  {
  }

  /** The join changes neither the records nor the drop count. */
  lemma JoinIgnoredByReport(t: seq<Entry>, lines: seq<OrderLine>)
    requires forall i :: 0 <= i < |t| ==> t[i].key.Some?
    ensures Report(JoinedAll(t, lines)) == Report(t)
    ensures |Kept(JoinedAll(t, lines))| == |Kept(t)|
  {
    JoinKeepsOutputColumns(t, lines);
    ReportIgnoresJoinColumns(JoinedAll(t, lines), t);
  }

  /** On well-formed sheets no column check fails. */
  lemma NothingMissing(balance: Option<Table<BalanceRow>>, inbound: Option<Table<InboundRow>>,
                       orders: Option<Table<OrderLine>>)
    requires SchemaOk(balance, inbound, orders)
    ensures MissingColumns(BalanceColumns, balance.value.columns) == []
    ensures MissingColumns(InboundColumns, inbound.value.columns) == []
    ensures MissingColumns(OrderColumns, orders.value.columns) == []
  {
  }

  /** A run over three well-formed sheets completes with the records of the
      working table, before or after the join alike. */
  lemma CompletedRun(balance: Option<Table<BalanceRow>>, inbound: Option<Table<InboundRow>>,
                     orders: Option<Table<OrderLine>>, strict: string -> bool)
    requires SchemaOk(balance, inbound, orders)
    ensures var t := WorkingTable(balance.value.rows, SelectBoschRows(inbound.value.rows, strict));
      Run(balance, inbound, orders, strict) == Completed(Report(t), |t| - |Kept(t)|)
  {
    var t := WorkingTable(balance.value.rows, SelectBoschRows(inbound.value.rows, strict));
    RunOnWellFormedSheets(balance, inbound, orders, strict);
    JoinIgnoredByReport(t, orders.value.rows);
  }

  /** On well-formed sheets the run reports on the joined working table. */
  lemma RunOnWellFormedSheets(balance: Option<Table<BalanceRow>>, inbound: Option<Table<InboundRow>>,
                              orders: Option<Table<OrderLine>>, strict: string -> bool)
    requires SchemaOk(balance, inbound, orders)
    ensures var joined := JoinedAll(WorkingTable(balance.value.rows, SelectBoschRows(inbound.value.rows, strict)),
                                    orders.value.rows);
      Run(balance, inbound, orders, strict) == Completed(Report(joined), |joined| - |Kept(joined)|)
  {
    NothingMissing(balance, inbound, orders);
  }

  /** Row `i` of the joined table receives the order fields of the first
      order line whose key equals its own, or the no-match defaults when no
      line has that key; its other columns are unchanged. */
  lemma JoinFirstMatch(t: seq<Entry>, lines: seq<OrderLine>, i: nat)
    requires forall j :: 0 <= j < |t| ==> t[j].key.Some?
    requires i < |t|
    ensures JoinedAll(t, lines)[i].(order := t[i].order) == t[i]
    ensures forall j :: FirstMatchAt(lines, t[i].key.value, j) ==>
      JoinedAll(t, lines)[i].order == Some(FieldsOf(lines[j]))
    ensures (forall l :: l in lines ==> LineKey(l) != t[i].key.value) ==>
      JoinedAll(t, lines)[i].order == Some(NoMatch)
  {
    forall j | FirstMatchAt(lines, t[i].key.value, j)
      ensures JoinedAll(t, lines)[i].order == Some(FieldsOf(lines[j]))
    {
      LookupOrderFirstMatch(lines, t[i].key.value, j);
    }
    if forall l :: l in lines ==> LineKey(l) != t[i].key.value {
      LookupOrderNoMatch(lines, t[i].key.value);
    }
  }

  /** The joined order fields never reach the output: a run gives the same
      outcome for any two order-line sheets that pass the column check. */
  lemma OrderLinesDoNotReachOutput(balance: Table<BalanceRow>, inbound: Table<InboundRow>,
                                   orders1: Table<OrderLine>, orders2: Table<OrderLine>, strict: string -> bool)
    requires forall c :: c in OrderColumns ==> c in orders1.columns
    requires forall c :: c in OrderColumns ==> c in orders2.columns
    ensures Run(Some(balance), Some(inbound), Some(orders1), strict)
         == Run(Some(balance), Some(inbound), Some(orders2), strict)
  {
    if SchemaOk(Some(balance), Some(inbound), Some(orders1)) {
      CompletedRun(Some(balance), Some(inbound), Some(orders1), strict);
      CompletedRun(Some(balance), Some(inbound), Some(orders2), strict);
    }
  }

  /** No row is kept exactly when no row has a depot code. */
  lemma KeptEmpty(rows: seq<Entry>)
    ensures Kept(rows) == [] <==> forall i :: 0 <= i < |rows| ==> !HasDepot(rows[i])
  {
    FilterEmpty(rows, HasDepot);
  }

  /** Every record built from a table whose rows carry the DEPO or TEDARİKÇİ
      tag names a whitelisted depot, has an empty delivery date and one of
      the two tags. */
  lemma {:induction false} ReportRecordsShape(rows: seq<Entry>)
    requires forall i :: 0 <= i < |rows| ==> rows[i].group == Text(Depot) || rows[i].group == Text(Supplier)
    ensures forall k :: 0 <= k < |Report(rows)| ==> WellFormedRecord(Report(rows)[k])
  {
    KeptMembers(rows);
    var kept := Kept(rows);
    forall k | 0 <= k < |Report(rows)| ensures WellFormedRecord(Report(rows)[k]) {
      var e := kept[k];
      assert e in kept;
      var j :| 0 <= j < |rows| && rows[j] == e;
      ToRecordFields(e);
    }
  }

  /** The shape every output record has. */
  predicate WellFormedRecord(r: OrderRecord) {
    r.depotCode in DepotCodes && r.estimatedDelivery == "" && (r.group == Depot || r.group == Supplier)
  }

  /** A record's total is its row's total, 0.0 where that cell is blank. */
  lemma RecordTotals(rows: seq<Entry>, k: nat)
    requires k < |Report(rows)|
    ensures Kept(rows)[k] in rows
    ensures Kept(rows)[k].total.None? ==> Report(rows)[k].total == 0.0
    ensures Kept(rows)[k].total.Some? ==> Report(rows)[k].total == Kept(rows)[k].total.value
  {
    KeptMembers(rows);
    assert Kept(rows)[k] in Kept(rows);
    ToRecordFields(Kept(rows)[k]);
  }

  /** In a completed run, records and dropped rows together account for
      every balance row and every selected inbound row, and every record is
      well-formed. */
  lemma CompletedRunRecords(balance: Option<Table<BalanceRow>>, inbound: Option<Table<InboundRow>>,
                            orders: Option<Table<OrderLine>>, strict: string -> bool)
    requires Run(balance, inbound, orders, strict).Completed?
    ensures var o := Run(balance, inbound, orders, strict);
      |o.records| + o.filtered == |balance.value.rows| + |SelectBoschRows(inbound.value.rows, strict)|
    ensures var o := Run(balance, inbound, orders, strict);
      forall k :: 0 <= k < |o.records| ==> WellFormedRecord(o.records[k])
  {
    var t := WorkingTable(balance.value.rows, SelectBoschRows(inbound.value.rows, strict));
    var joined := JoinedAll(t, orders.value.rows);
    WorkingTableKeyedAndTagged(balance.value.rows, SelectBoschRows(inbound.value.rows, strict));
    forall i | 0 <= i < |joined| ensures joined[i].group == Text(Depot) || joined[i].group == Text(Supplier) {
      assert KeyedAndTagged(t[i]);
    }
    ReportRecordsShape(joined);
  }

  /** Of three rows of which only the middle one lacks a depot code, the
      first and the last are kept, in that order. */
  lemma KeptFirstAndLast(e1: Entry, e2: Entry, e3: Entry)
    requires HasDepot(e1) && !HasDepot(e2) && HasDepot(e3)
    ensures Kept([e1, e2, e3]) == [e1, e3]
  {
    FilterDropsMiddle(e1, e2, e3, HasDepot);
  }

  /** Worked example: of three rows noted "AAS123", "ZZZ999" and "das-x",
      the first and the last survive, in that order, with depot codes aas and
      das; the middle one is dropped and counted. */
  lemma DepotFilterExample(e1: Entry, e2: Entry, e3: Entry)
    requires e1.note == Text("AAS123") && e2.note == Text("ZZZ999") && e3.note == Text("das-x")
    ensures Kept([e1, e2, e3]) == [e1, e3]
    ensures |Report([e1, e2, e3])| == 2 && 3 - |Kept([e1, e2, e3])| == 1
    ensures Report([e1, e2, e3])[0].depotCode == "aas" && Report([e1, e2, e3])[1].depotCode == "das"
  {
    DepotCodeUpperCaseExample();
    DepotCodeUnknownExample();
    DepotCodeLowerCaseExample();
    KeptFirstAndLast(e1, e2, e3);
  }

  /** Filtering by a party test is order-preserving: it distributes over
      concatenation. */
  lemma RowsWhereConcat(a: seq<InboundRow>, b: seq<InboundRow>, p: string -> bool)
    ensures RowsWhere(a + b, p) == RowsWhere(a, p) + RowsWhere(b, p)
  {
    FilterConcat(a, b, PartyPasses(p));
  }

  /** The balance report used to show the empty-result case: one row whose
      note has no whitelisted depot code. */
  const UnknownDepotBalance: Table<BalanceRow> :=
    Table(BalanceColumns, [BalanceRow(Text("ZZZ999"), Text("X"), Text("1"), Some(1.0))])

  /** As written, a run whose every row is dropped by the depot filter returns
      no table even though all three sheets are well-formed; the corrected
      reading returns the empty list. */
  lemma EmptyReportIsDiscardedAsWritten(strict: string -> bool)
    ensures SchemaOk(Some(UnknownDepotBalance), Some(Table(InboundColumns, [])), Some(Table(OrderColumns, [])))
    ensures var o := Run(Some(UnknownDepotBalance), Some(Table(InboundColumns, [])),
                         Some(Table(OrderColumns, [])), strict);
      o == Completed([], 1) && ReturnedAsWritten(o) == None && Returned(o) == Some([])
  {
    var none: seq<InboundRow> := [];
    assert RowsWhere(none, strict) == [] && RowsWhere(none, MentionsBosch) == [];
    assert SelectBoschRows(none, strict) == [];
    CompletedRun(Some(UnknownDepotBalance), Some(Table(InboundColumns, none)), Some(Table(OrderColumns, [])), strict);
    var t := WorkingTable(UnknownDepotBalance.rows, []);
    BalanceRowsInWorkingTable(UnknownDepotBalance.rows, []);
    DepotCodeUnknownExample();
    assert !HasDepot(t[0]);
    KeptEmpty(t);
  }

  /** As written, a well-formed run returns no table exactly when no row of
      the working table has a depot code; the corrected reading returns a
      table for every well-formed run. */
  lemma AsWrittenResult(balance: Option<Table<BalanceRow>>, inbound: Option<Table<InboundRow>>,
                        orders: Option<Table<OrderLine>>, strict: string -> bool)
    requires SchemaOk(balance, inbound, orders)
    ensures var t := WorkingTable(balance.value.rows, SelectBoschRows(inbound.value.rows, strict));
      ReturnedAsWritten(Run(balance, inbound, orders, strict)).None? <==>
        forall i :: 0 <= i < |t| ==> !HasDepot(t[i])
    ensures Returned(Run(balance, inbound, orders, strict)).Some?
  {
    var t := WorkingTable(balance.value.rows, SelectBoschRows(inbound.value.rows, strict));
    CompletedRun(balance, inbound, orders, strict);
    KeptEmpty(t);
  }
}
