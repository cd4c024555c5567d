/** The three-sheet BOSCH reconciliation (`process_bosch_three_excel`): each
    stage as a function over rows, and the run itself as a method that builds
    the working balance table and updates it in place. */
module Reconciliation {
  import opened Strings
  import opened Cells
  import opened BoschCodes
  import opened Records
  import opened Sequences

  /** Product-group tags. */
  const Depot: string := "DEPO"
  const Supplier: string := "TEDARİKÇİ"

  // ---------------------------------------------------------------------
  // Balance report: Bosch numbers cleaned in place (`.apply`).

  function CleanedEntry(r: BalanceRow): (e: Entry) {
    Entry(r.note, r.group, ProcessBoschCode(r.boschNo), r.total, None, None)
  }

  /** The balance rows with every Bosch number run through the code cleaner;
      nothing else about a row changes. */
  function CleanedEntries(rows: seq<BalanceRow>): (es: seq<Entry>)
    ensures |es| == |rows|
    ensures forall i :: 0 <= i < |rows| ==>
      es[i].note == rows[i].note && es[i].group == rows[i].group && es[i].total == rows[i].total
      && es[i].boschNo == ProcessBoschCode(rows[i].boschNo)
  {
    seq(|rows|, i requires 0 <= i < |rows| => CleanedEntry(rows[i]))
  }

  // ---------------------------------------------------------------------
  // Inbound report: supplier filter and append.

  /** The loose supplier test: "BOSCH", in any case, inside the party name as text. */
  function MentionsBosch(name: string): bool {
    ContainsIgnoringCase(name, "BOSCH")
  }

  /** The test a row passes when its party name, as text, passes `p`. */
  function PartyPasses(p: string -> bool): InboundRow -> bool {
    (r: InboundRow) => p(AsStr(r.party))
  }

  /** The inbound rows whose party name, as text, passes `p`, in their order
      (a boolean mask over the rows). */
  function RowsWhere(rows: seq<InboundRow>, p: string -> bool): (sel: seq<InboundRow>)
    ensures |sel| <= |rows|
  {
    Filter(rows, PartyPasses(p))
  }

  /** A row is selected exactly when it is an inbound row that passes `p`. */
  lemma RowsWhereMembers(rows: seq<InboundRow>, p: string -> bool)
    ensures forall r :: r in RowsWhere(rows, p) <==> r in rows && p(AsStr(r.party))
  {
    FilterMembers(rows, PartyPasses(p));
  }

  /** The strict legal-name test `strict` decides the selection; only when it
      selects no row at all does the loose "BOSCH" test take over. */
  function SelectBoschRows(rows: seq<InboundRow>, strict: string -> bool): (sel: seq<InboundRow>)
    ensures |sel| <= |rows|
  {
    var exact := RowsWhere(rows, strict);
    if |exact| == 0 then RowsWhere(rows, MentionsBosch) else exact
  }

  /** Which inbound rows are selected: those passing the strict test when
      any row does, otherwise those mentioning BOSCH. */
  lemma SelectBoschRowsMembers(rows: seq<InboundRow>, strict: string -> bool)
    ensures forall r :: r in SelectBoschRows(rows, strict) ==> r in rows
    ensures (exists r :: r in rows && strict(AsStr(r.party))) ==>
      forall r :: r in SelectBoschRows(rows, strict) <==> r in rows && strict(AsStr(r.party))
    ensures (forall r :: r in rows ==> !strict(AsStr(r.party))) ==>
      forall r :: r in SelectBoschRows(rows, strict) <==> r in rows && MentionsBosch(AsStr(r.party))
  {
    RowsWhereMembers(rows, strict);
    RowsWhereMembers(rows, MentionsBosch);
    var exact := RowsWhere(rows, strict);
    if |exact| != 0 {
      assert exact[0] in exact;
    }
  }

  /** The balance row an inbound row becomes: its order number as the note,
      the DEPO tag, its product code cleaned as the Bosch number and its
      delivered quantity as the total. */
  function InboundEntry(r: InboundRow): (e: Entry)
    ensures e.note == r.orderNo && e.group == Text(Depot)
    ensures e.boschNo == ProcessBoschCode(r.productCode) && e.total == r.deliveredQty
  {
    Entry(r.orderNo, Text(Depot), ProcessBoschCode(r.productCode), r.deliveredQty, None, None)
  }

  function InboundEntries(sel: seq<InboundRow>): (es: seq<Entry>)
    ensures |es| == |sel|
    ensures forall k :: 0 <= k < |sel| ==> es[k] == InboundEntry(sel[k])
  {
    seq(|sel|, k requires 0 <= k < |sel| => InboundEntry(sel[k]))
  }

  /** The concatenation loop: one new row per selected inbound row, each
      exactly once and in order, after the existing rows. */
  method AppendInbound(table: seq<Entry>, selected: seq<InboundRow>) returns (t: seq<Entry>)
    ensures t == table + InboundEntries(selected)
  {
    t := table;
    var i := 0;
    while i < |selected|
      invariant 0 <= i <= |selected|
      invariant t == table + InboundEntries(selected[..i])
    {
      assert InboundEntries(selected[..i + 1]) == InboundEntries(selected[..i]) + [InboundEntry(selected[i])];
      t := t + [InboundEntry(selected[i])];
      i := i + 1;
    }
    assert selected[..i] == selected;
  }

  // ---------------------------------------------------------------------
  // Composite key and re-tag, both whole-column updates.

  /** The row with its composite key column: note and Bosch number as text,
      spaces deleted, concatenated. */
  function WithKey(e: Entry): (k: Entry) {
    e.(key := Some(CompositeKey(e.note, Text(e.boschNo))))
  }

  function Keyed(s: seq<Entry>): (r: seq<Entry>)
    ensures |r| == |s|
    ensures forall i :: 0 <= i < |s| ==> r[i] == WithKey(s[i]) && r[i].key.Some?
  {
    seq(|s|, i requires 0 <= i < |s| => WithKey(s[i]))
  }

  /** The re-tag: a row tagged DEPO keeps its tag, every other row (a missing
      tag included) becomes TEDARİKÇİ; nothing else about the row changes. */
  function Retag(e: Entry): (t: Entry)
    ensures t.group == Text(Depot) || t.group == Text(Supplier)
    ensures e.group == Text(Depot) ==> t == e
    ensures e.group != Text(Depot) ==> t == e.(group := Text(Supplier))
  {
    if e.group == Text(Depot) then e else e.(group := Text(Supplier))
  }

  function Tagged(s: seq<Entry>): (r: seq<Entry>)
    ensures |r| == |s|
    ensures forall i :: 0 <= i < |s| ==> r[i] == Retag(s[i])
  {
    seq(|s|, i requires 0 <= i < |s| => Retag(s[i]))
  }

  /** Writes every row's composite key into the table. */
  method AttachKeys(a: array<Entry>)
    modifies a
    ensures a[..] == Keyed(old(a[..]))
  {
    forall i | 0 <= i < a.Length {
      a[i] := WithKey(a[i]);
    }
  }

  /** Re-tags every row of the table in place. */
  method TagGroups(a: array<Entry>)
    modifies a
    ensures a[..] == Tagged(old(a[..]))
  {
    forall i | 0 <= i < a.Length {
      a[i] := Retag(a[i]);
    }
  }

  // ---------------------------------------------------------------------
  // Join against the order lines: first match wins.

  /** An order line's composite key: order number and stock code as text,
      spaces deleted, concatenated. */
  function LineKey(l: OrderLine): (k: string) {
    CompositeKey(l.orderNo, l.stockCode)
  }

  /** An order line's key is its order number and stock code, each as text
      (a missing cell as "nan"), joined, with every space deleted. */
  lemma LineKeyIsJoinedText(l: OrderLine)
    ensures LineKey(l) == RemoveSpaces(AsStr(l.orderNo) + AsStr(l.stockCode))
  {
    RemoveSpacesConcat(AsStr(l.orderNo), AsStr(l.stockCode));
  }

  function LineKeys(lines: seq<OrderLine>): (ks: seq<string>)
    ensures |ks| == |lines|
    ensures forall i :: 0 <= i < |lines| ==> ks[i] == LineKey(lines[i])
  {
    seq(|lines|, i requires 0 <= i < |lines| => LineKey(lines[i]))
  }

  /** The position of the first occurrence of `k` in `keys`, if any. */
  function FirstIndexOf(keys: seq<string>, k: string): (i: Option<nat>)
    ensures i.Some? ==> i.value < |keys| && keys[i.value] == k
    ensures i.Some? ==> forall j :: 0 <= j < i.value ==> keys[j] != k
    ensures i.None? <==> k !in keys
  {
    if keys == [] then None
    else if keys[0] == k then Some(0)
    else
      match FirstIndexOf(keys[1..], k)
      case None =>
        assert keys == [keys[0]] + keys[1..];
        None
      case Some(j) => Some(j + 1)
  }

  /** `lines[i]` is the first order line whose key is `key`. */
  ghost predicate FirstMatchAt(lines: seq<OrderLine>, key: string, i: int) {
    0 <= i < |lines| && LineKey(lines[i]) == key
    && forall j :: 0 <= j < i ==> LineKey(lines[j]) != key
  }

  function FieldsOf(l: OrderLine): OrderFields {
    OrderFields(l.orderNo, l.stockCode, l.orderedQty, l.remainingQty)
  }

  /** What a row with no matching order line receives: '', '', 0 and 0. */
  const NoMatch: OrderFields := OrderFields(Text(""), Text(""), Some(0.0), Some(0.0))

  /** The order fields a balance row with key `key` receives: those of the
      first order line with an equal key, or the no-match defaults. */
  function LookupOrder(lines: seq<OrderLine>, key: string): (f: OrderFields) {
    match FirstIndexOf(LineKeys(lines), key)
    case None => NoMatch
    case Some(i) => FieldsOf(lines[i])
  }

  /** The first occurrence is found: `FirstIndexOf` is `i` exactly when
      `keys[i]` is the earliest key equal to `k`. */
  lemma FirstIndexOfAt(keys: seq<string>, k: string, i: nat)
    requires i < |keys| && keys[i] == k
    requires forall j :: 0 <= j < i ==> keys[j] != k
    ensures FirstIndexOf(keys, k) == Some(i)
  {
    assert keys[i] in keys;
  }

  /** A row receives the fields of the first order line with its key. */
  lemma LookupOrderFirstMatch(lines: seq<OrderLine>, key: string, i: int)
    requires FirstMatchAt(lines, key, i)
    ensures LookupOrder(lines, key) == FieldsOf(lines[i])
  {
    FirstIndexOfAt(LineKeys(lines), key, i);
  }

  /** A row whose key no order line has receives the no-match defaults. */
  lemma LookupOrderNoMatch(lines: seq<OrderLine>, key: string)
    requires forall l :: l in lines ==> LineKey(l) != key
    ensures LookupOrder(lines, key) == NoMatch
  {
    var keys := LineKeys(lines);
    forall j | 0 <= j < |keys| ensures keys[j] != key {
      assert lines[j] in lines;
    }
    assert key !in keys;
  }

  function JoinEntry(e: Entry, lines: seq<OrderLine>): Entry
    requires e.key.Some?
  {
    e.(order := Some(LookupOrder(lines, e.key.value)))
  }

  function JoinedAll(s: seq<Entry>, lines: seq<OrderLine>): (r: seq<Entry>)
    requires forall i :: 0 <= i < |s| ==> s[i].key.Some?
    ensures |r| == |s|
    ensures forall i :: 0 <= i < |s| ==> r[i] == JoinEntry(s[i], lines)
  {
    seq(|s|, i requires 0 <= i < |s| => JoinEntry(s[i], lines))
  }

  /** The matching loop: the key column of the order lines is built once,
      then every balance row, in turn, receives the order fields of its
      first match. */
  method JoinOrders(a: array<Entry>, lines: seq<OrderLine>)
    requires forall i :: 0 <= i < a.Length ==> a[i].key.Some?
    modifies a
    ensures a[..] == JoinedAll(old(a[..]), lines)
  {
    var keys := LineKeys(lines);
    ghost var before := a[..];
    var i := 0;
    while i < a.Length
      invariant 0 <= i <= a.Length
      invariant forall j :: 0 <= j < i ==> before[j].key.Some? && a[j] == JoinEntry(before[j], lines)
      invariant forall j :: i <= j < a.Length ==> a[j] == before[j]
    {
      var e := a[i];
      var m := FirstIndexOf(keys, e.key.value);
      if m.Some? {
        a[i] := e.(order := Some(FieldsOf(lines[m.value])));
      } else {
        a[i] := e.(order := Some(NoMatch));
      }
      assert a[i] == JoinEntry(e, lines);
      i := i + 1;
    }
    assert a[..] == JoinedAll(before, lines);
  }

  // ---------------------------------------------------------------------
  // Output: depot filter and record building.

  predicate HasDepot(e: Entry) {
    DepotCode(e.note) != ""
  }

  /** The rows with a whitelisted depot code, in table order. */
  function Kept(rows: seq<Entry>): (k: seq<Entry>)
    ensures |k| <= |rows|
  {
    Filter(rows, HasDepot)
  }

  /** An entry is kept exactly when it is a row with a depot code. */
  lemma KeptMembers(rows: seq<Entry>)
    ensures forall e :: e in Kept(rows) <==> e in rows && HasDepot(e)
  {
    FilterMembers(rows, HasDepot);
  }

  /** The output record of one kept row. */
  function ToRecord(e: Entry): (rec: OrderRecord) {
    OrderRecord(
      OrEmpty(e.note), DepotCode(e.note), OrEmpty(e.group), OrEmpty(Text(e.boschNo)),
      Sutun1(e.note, Text(e.boschNo)), "", AmountOrZero(e.total))
  }

  /** The record of a kept row names a whitelisted depot, copies the row's
      note, group and Bosch number (a missing note or group as ""), carries
      the display key, an empty delivery date and the total, 0.0 where the
      total is blank. */
  lemma ToRecordFields(e: Entry)
    ensures HasDepot(e) ==> ToRecord(e).depotCode in DepotCodes
    ensures ToRecord(e).note == OrEmpty(e.note) && ToRecord(e).group == OrEmpty(e.group)
    ensures ToRecord(e).boschNo == e.boschNo && ToRecord(e).estimatedDelivery == ""
    ensures ToRecord(e).sutun1 == Sutun1(e.note, Text(e.boschNo))
    ensures e.total.None? ==> ToRecord(e).total == 0.0
    ensures e.total.Some? ==> ToRecord(e).total == e.total.value
  {
  }

  /** The output list: one record per kept row, in order. */
  function Report(rows: seq<Entry>): (out: seq<OrderRecord>)
    ensures |out| == |Kept(rows)|
  {
    Map(Kept(rows), ToRecord)
  }

  /** The output keeps exactly the rows with a whitelisted depot code, in
      order: one more row at the end adds its record at the end, or nothing. */
  lemma ReportSnoc(s: seq<Entry>, e: Entry)
    ensures Kept(s + [e]) == Kept(s) + (if HasDepot(e) then [e] else [])
    ensures Report(s + [e]) == Report(s) + (if HasDepot(e) then [ToRecord(e)] else [])
  {
    FilterSnoc(s, e, HasDepot);
    if HasDepot(e) {
      MapSnoc(Kept(s), e, ToRecord);
    }
  }

  /** The output loop: a record for every row with a depot code, a tally of
      the others. */
  method EmitRecords(rows: seq<Entry>) returns (records: seq<OrderRecord>, filtered: nat)
    ensures records == Report(rows)
    ensures |records| + filtered == |rows|
  {
    records, filtered := [], 0;
    var i := 0;
    while i < |rows|
      invariant 0 <= i <= |rows|
      invariant records == Report(rows[..i])
      invariant |records| + filtered == i
    {
      ReportStep(rows, i);
      var depot := DepotCode(rows[i].note);
      if depot != "" {
        records := records + [ToRecord(rows[i])];
      } else {
        filtered := filtered + 1;
      }
      i := i + 1;
    }
    assert rows[..i] == rows;
  }

  /** One iteration of the output loop extends the output of the prefix. */
  lemma ReportStep(rows: seq<Entry>, i: nat)
    requires i < |rows|
    ensures Report(rows[..i + 1]) == Report(rows[..i]) + (if HasDepot(rows[i]) then [ToRecord(rows[i])] else [])
  {
    assert rows[..i + 1] == rows[..i] + [rows[i]];
    ReportSnoc(rows[..i], rows[i]);
  }

  // ---------------------------------------------------------------------
  // The run.

  datatype Sheet = BalanceReport | InboundReport | OrderLinesReport

  /** Why a run produced no table. */
  datatype Failure = FilesMissing | ColumnsMissing(sheet: Sheet, missing: seq<string>)

  /** A run either stops with a failure or completes with its records and
      the number of rows the depot filter dropped. */
  datatype Outcome = Aborted(failure: Failure) | Completed(records: seq<OrderRecord>, filtered: nat)

  /** The balance table after the selected inbound rows are appended, the
      keys are built and the groups re-tagged. */
  function WorkingTable(balance: seq<BalanceRow>, selected: seq<InboundRow>): (t: seq<Entry>)
    ensures |t| == |balance| + |selected|
    ensures forall i :: 0 <= i < |t| ==> t[i].key.Some?
  {
    Tagged(Keyed(CleanedEntries(balance) + InboundEntries(selected)))
  }

  /** What the run computes from the three uploads (`None`: not uploaded). */
  function Run(balance: Option<Table<BalanceRow>>, inbound: Option<Table<InboundRow>>,
               orders: Option<Table<OrderLine>>, strict: string -> bool): (o: Outcome)
  {
    if balance.None? || inbound.None? || orders.None? then Aborted(FilesMissing)
    else if MissingColumns(BalanceColumns, balance.value.columns) != [] then
      Aborted(ColumnsMissing(BalanceReport, MissingColumns(BalanceColumns, balance.value.columns)))
    else if MissingColumns(InboundColumns, inbound.value.columns) != [] then
      Aborted(ColumnsMissing(InboundReport, MissingColumns(InboundColumns, inbound.value.columns)))
    else if MissingColumns(OrderColumns, orders.value.columns) != [] then
      Aborted(ColumnsMissing(OrderLinesReport, MissingColumns(OrderColumns, orders.value.columns)))
    else
      var joined := JoinedAll(WorkingTable(balance.value.rows, SelectBoschRows(inbound.value.rows, strict)), orders.value.rows);
      Completed(Report(joined), |joined| - |Kept(joined)|)
  }

  /** `process_bosch_three_excel`, step by step, on a working table held in
      an array that the in-place stages update. */
  method Reconcile(balance: Option<Table<BalanceRow>>, inbound: Option<Table<InboundRow>>,
                   orders: Option<Table<OrderLine>>, strict: string -> bool)
    returns (outcome: Outcome)
    ensures outcome == Run(balance, inbound, orders, strict)
  {
    if balance.None? || inbound.None? || orders.None? {
      return Aborted(FilesMissing);
    }
    var missing := MissingColumns(BalanceColumns, balance.value.columns);
    if missing != [] {
      return Aborted(ColumnsMissing(BalanceReport, missing));
    }
    var table := CleanedEntries(balance.value.rows);

    missing := MissingColumns(InboundColumns, inbound.value.columns);
    if missing != [] {
      return Aborted(ColumnsMissing(InboundReport, missing));
    }
    var selected := SelectBoschRows(inbound.value.rows, strict);
    var appended := AppendInbound(table, selected);
    assert appended == table + InboundEntries(selected);

    var a := new Entry[|appended|](i requires 0 <= i < |appended| => appended[i]);
    assert a[..] == appended;
    AttachKeys(a);
    TagGroups(a);
    assert a[..] == WorkingTable(balance.value.rows, selected);

    missing := MissingColumns(OrderColumns, orders.value.columns);
    if missing != [] {
      return Aborted(ColumnsMissing(OrderLinesReport, missing));
    }
    JoinOrders(a, orders.value.rows);

    var records, filtered := EmitRecords(a[..]);
    outcome := Completed(records, filtered);
  }

  /** What `process_bosch_three_excel` returns, as written: the records of a
      completed run, but `None` when that list is empty, because the
      summary shown after it reads a column of the empty result, which
      raises, and the handler around the run returns `None`. */
  function ReturnedAsWritten(o: Outcome): (r: Option<seq<OrderRecord>>) {
    match o
    case Aborted(_) => None
    case Completed(records, _) => if records == [] then None else Some(records)
  }

  /** What the run is meant to return: the records of every completed run,
      an empty list included; `None` only for a failure. */
  function Returned(o: Outcome): (r: Option<seq<OrderRecord>>)
    ensures r.None? <==> o.Aborted?
    ensures o.Completed? ==> r == Some(o.records)
  {
    match o
    case Aborted(_) => None
    case Completed(records, _) => Some(records)
  }
}
