/**
 * The table component as a view model: the header and body it would write into
 * the DOM are kept as values, and each button as the callback it invokes with
 * the row id it is bound to.
 */
module Table {
  import opened Wrappers
  import opened Records
  import opened Sequences

  /** The column that identifies a row; it is not shown as a column. */
  const IdKey := "id"
  const IncompatibleColumnsMessage := "Nesutampa lentelės stulpelių skaičius su eilučių stulpelių skaičiumi"
  const OptionsLabel := "OPTIONS"
  const CancelLabel := "Cancel"
  const EditLabel := "✎"
  const DeleteLabel := "Delete"
  /** What a template literal shows for a missing property. */
  const UndefinedText := "undefined"

  /** `TableProps`: `H` stands for the callbacks `(id: string) => void`. */
  datatype Props<H> = Props(
    title: string,
    columns: Record,
    rowsData: seq<Record>,
    editedCarId: Option<string>,
    onDelete: H,
    onEdit: H)

  /** `Partial<TableProps>`: `None` means the field is not present. */
  datatype PartialProps<H> = PartialProps(
    title: Option<string>,
    columns: Option<Record>,
    rowsData: Option<seq<Record>>,
    editedCarId: Option<Option<string>>,
    onDelete: Option<H>,
    onEdit: Option<H>)

  /** The head: the title row and its colspan, then the row of column labels. */
  datatype Head = Head(title: string, colspan: nat, labels: seq<string>)

  /** A button: its text and the callback it calls, with its argument, on click. */
  datatype Button<H> = Button(text: string, handler: H, argument: Option<string>)

  /** A body row: its data cells, then the actions cell with its two buttons. */
  datatype BodyRow<H> = BodyRow(cells: seq<string>, edit: Button<H>, delete: Button<H>)

  // ---------------------------------------------------------------------------
  // The column/row compatibility check

  /** `rows.every((row) => countObjectProperties(row) === count)` */
  function AllHaveCount(rows: seq<Record>, count: nat): (b: bool)
    ensures b <==> forall i :: 0 <= i < |rows| ==> CountProperties(rows[i]) == count
  {
    if rows == [] then true
    else
      assert forall i :: 0 < i < |rows| ==> rows[i] == rows[1..][i - 1];
      CountProperties(rows[0]) == count && AllHaveCount(rows[1..], count)
  }

  /** `checkColumnsCompatability`: the error it throws, if any. */
  function CheckColumnsCompatibility(columns: Record, rowsData: seq<Record>): (r: Option<string>)
    ensures r.Some? <==>
      |rowsData| > 0 && exists i :: 0 <= i < |rowsData| && CountProperties(rowsData[i]) != CountProperties(columns)
    ensures r.Some? ==> r.value == IncompatibleColumnsMessage
  {
    if |rowsData| == 0 then None
    else
      var columnCount := CountProperties(columns);
      if AllHaveCount(rowsData, columnCount) then None else Some(IncompatibleColumnsMessage)
  }

  // ---------------------------------------------------------------------------
  // Rendering

  /** `renderHeadView`: title spanning the labels plus the actions column, labels then "OPTIONS". */
  function HeadView(title: string, headerObj: Record): (h: Head)
    ensures h.title == title
    ensures h.colspan == |headerObj| + 1 == |h.labels|
    ensures forall i :: 0 <= i < |headerObj| ==> h.labels[i] == headerObj[i].value
    ensures h.labels[|headerObj|] == OptionsLabel
  {
    var headersArray := Values(headerObj);
    Head(title, |headersArray| + 1, headersArray + [OptionsLabel])
  }

  /** `${value}`: a present value as is, a missing one as "undefined". */
  function CellText(value: Option<string>): (t: string)
    ensures value.Some? ==> t == value.value
    ensures value.None? ==> t == UndefinedText
  {
    if value.Some? then value.value else UndefinedText
  }

  /** `Object.keys(headerObj).map((key) => rowData[key])` */
  function Cells(headerObj: Record, row: Record): (r: seq<string>)
    ensures |r| == |headerObj|
    ensures DistinctKeys(row) ==>
      forall j, i :: 0 <= j < |headerObj| && 0 <= i < |row| && row[i].key == headerObj[j].key ==> r[j] == row[i].value
    ensures forall j :: 0 <= j < |headerObj| && (forall i :: 0 <= i < |row| ==> row[i].key != headerObj[j].key) ==>
      r[j] == UndefinedText
  {
    var keys := Keys(headerObj);
    seq(|keys|, j requires 0 <= j < |keys| => CellText(Lookup(row, keys[j])))
  }

  /** One body row, with `addActionsCell` bound to the row's id. */
  function RowView<H>(headerObj: Record, row: Record, editedCarId: Option<string>, onEdit: H, onDelete: H)
    : (r: BodyRow<H>)
    ensures r.cells == Cells(headerObj, row)
    ensures r.edit.text == CancelLabel <==> editedCarId.Some? && Lookup(row, IdKey) == editedCarId
    ensures r.edit.text != CancelLabel ==> r.edit.text == EditLabel
    ensures r.edit.handler == onEdit && r.delete.handler == onDelete && r.delete.text == DeleteLabel
    ensures r.edit.argument == r.delete.argument == Lookup(row, IdKey)
  {
    var id := Lookup(row, IdKey);
    var isCancelButton := editedCarId.Some? && id == editedCarId;
    BodyRow(Cells(headerObj, row),
            Button(if isCancelButton then CancelLabel else EditLabel, onEdit, id),
            Button(DeleteLabel, onDelete, id))
  }

  /** `renderBodyView`: one row per entry of `rowsData`, in order. */
  function BodyView<H>(headerObj: Record, rowsData: seq<Record>, editedCarId: Option<string>, onEdit: H, onDelete: H)
    : (body: seq<BodyRow<H>>)
    ensures |body| == |rowsData|
    ensures forall i :: 0 <= i < |rowsData| ==>
      |body[i].cells| == |headerObj| &&
      forall j :: 0 <= j < |headerObj| ==> body[i].cells[j] == CellText(Lookup(rowsData[i], headerObj[j].key))
    ensures forall i :: 0 <= i < |rowsData| ==>
      (body[i].edit.text == CancelLabel <==> editedCarId.Some? && Lookup(rowsData[i], IdKey) == editedCarId) &&
      (body[i].edit.text != CancelLabel ==> body[i].edit.text == EditLabel)
    ensures forall i :: 0 <= i < |rowsData| ==>
      body[i].edit.handler == onEdit && body[i].delete.handler == onDelete &&
      body[i].delete.text == DeleteLabel &&
      body[i].edit.argument == body[i].delete.argument == Lookup(rowsData[i], IdKey)
  {
    seq(|rowsData|, i requires 0 <= i < |rowsData| => RowView(headerObj, rowsData[i], editedCarId, onEdit, onDelete))
  }

  /**
   * A row whose properties come in the same order as the columns shows its own
   * values, without its id, as its cells.
   */
  lemma AlignedRowCells(columns: Record, row: Record)
    requires DistinctKeys(row) && Keys(row) == Keys(columns)
    ensures Cells(WithoutKey(columns, IdKey), row) == Values(WithoutKey(row, IdKey))
  {
    var headerObj, shown := WithoutKey(columns, IdKey), WithoutKey(row, IdKey);
    WithoutKeySameKeys(columns, row, IdKey);
    assert |headerObj| == |Keys(headerObj)| == |Keys(shown)| == |shown|;
    forall j | 0 <= j < |shown| ensures Cells(headerObj, row)[j] == Values(shown)[j] {
      assert Keys(headerObj)[j] == Keys(shown)[j] == shown[j].key;
      assert shown[j] in row;
    }
  }

  /** The header labels, before "OPTIONS", are the columns' values in their key order, without `id`'s. */
  lemma HeaderLabelsInColumnOrder(title: string, columns: Record)
    ensures var h := HeadView(title, WithoutKey(columns, IdKey));
            h.labels[..|h.labels| - 1] == Values(WithoutKey(columns, IdKey)) &&
            IsSubseq(h.labels[..|h.labels| - 1], Values(columns))
  {
    ValuesSubseq(WithoutKey(columns, IdKey), columns);
  }

  /** The title spans every column of `columns`: the non-id ones plus the actions column. */
  lemma TitleSpansAllColumns(title: string, columns: Record)
    requires DistinctKeys(columns) && Lookup(columns, IdKey).Some?
    ensures HeadView(title, WithoutKey(columns, IdKey)).colspan == CountProperties(columns)
  {
    WithoutKeyCount(columns, IdKey);
  }

  // ---------------------------------------------------------------------------
  // Updating the props

  /** `{ ...props, ...newProps }` */
  function Merge<H>(props: Props<H>, newProps: PartialProps<H>): (r: Props<H>)
    ensures r.title == if newProps.title.Some? then newProps.title.value else props.title
    ensures r.columns == if newProps.columns.Some? then newProps.columns.value else props.columns
    ensures r.rowsData == if newProps.rowsData.Some? then newProps.rowsData.value else props.rowsData
    ensures r.editedCarId == if newProps.editedCarId.Some? then newProps.editedCarId.value else props.editedCarId
    ensures r.onDelete == if newProps.onDelete.Some? then newProps.onDelete.value else props.onDelete
    ensures r.onEdit == if newProps.onEdit.Some? then newProps.onEdit.value else props.onEdit
  {
    Props(
      if newProps.title.Some? then newProps.title.value else props.title,
      if newProps.columns.Some? then newProps.columns.value else props.columns,
      if newProps.rowsData.Some? then newProps.rowsData.value else props.rowsData,
      if newProps.editedCarId.Some? then newProps.editedCarId.value else props.editedCarId,
      if newProps.onDelete.Some? then newProps.onDelete.value else props.onDelete,
      if newProps.onEdit.Some? then newProps.onEdit.value else props.onEdit)
  }

  /** Merging the same partial props twice is merging them once. */
  lemma MergeIdempotent<H>(props: Props<H>, newProps: PartialProps<H>)
    ensures Merge(Merge(props, newProps), newProps) == Merge(props, newProps)
  {
  }

  /** Merging an empty partial changes nothing. */
  lemma MergeNothing<H>(props: Props<H>)
    ensures Merge(props, PartialProps(None, None, None, None, None, None)) == props
  {
  }

  /**
   * The compatibility check is not run again on update: props that passed it
   * can be merged with rows it would reject.
   */
  lemma UpdateSkipsCompatibilityCheck<H>(callback: H)
    ensures var props := Props("Cars", [Entry(IdKey, "ID"), Entry("brand", "Brand")], [], None, callback, callback);
            var newProps := PartialProps(None, None, Some([[Entry(IdKey, "1")]]), None, None, None);
            CheckColumnsCompatibility(props.columns, props.rowsData).None? &&
            CheckColumnsCompatibility(Merge(props, newProps).columns, Merge(props, newProps).rowsData).Some?
  {
    var row := [Entry(IdKey, "1")];
    assert CountProperties(row) == 1;
    assert CountProperties([Entry(IdKey, "ID"), Entry("brand", "Brand")]) == 2;
  }

  /** Columns `{id, brand, model}` with the row `{id: "1", brand: "Toyota"}` are rejected. */
  lemma MismatchedRowRejected()
    ensures CheckColumnsCompatibility(
              [Entry(IdKey, "ID"), Entry("brand", "Brand"), Entry("model", "Model")],
              [[Entry(IdKey, "1"), Entry("brand", "Toyota")]]) == Some(IncompatibleColumnsMessage)
  {
    var row := [Entry(IdKey, "1"), Entry("brand", "Toyota")];
    assert CountProperties(row) == 2;
  }

  /** Only the number of properties is checked: a row with other keys passes and shows "undefined". */
  lemma CountCheckIgnoresKeys()
    ensures var columns := [Entry(IdKey, "ID"), Entry("brand", "Brand")];
            var rows := [[Entry(IdKey, "1"), Entry("price", "5000")]];
            CheckColumnsCompatibility(columns, rows).None? &&
            Cells(WithoutKey(columns, IdKey), rows[0]) == [UndefinedText]
  {
    var columns := [Entry(IdKey, "ID"), Entry("brand", "Brand")];
    var row := [Entry(IdKey, "1"), Entry("price", "5000")];
    assert CountProperties(row) == 2 && CountProperties(columns) == 2;
    assert WithoutKey(columns, IdKey) == [Entry("brand", "Brand")] by {
      assert columns[0].key == IdKey && columns[1].key != IdKey;
      assert WithoutKey(columns[1..], IdKey) == [columns[1]] + WithoutKey(columns[1..][1..], IdKey);
    }
    assert Lookup(row, "brand") == None;
  }

  /** Every object in the props has distinct property names, as a JavaScript object does. */
  ghost predicate WellFormed<H>(props: Props<H>)
  {
    DistinctKeys(props.columns) && forall i :: 0 <= i < |props.rowsData| ==> DistinctKeys(props.rowsData[i])
  }

  /** Every object in the partial props has distinct property names. */
  ghost predicate WellFormedPartial<H>(newProps: PartialProps<H>)
  {
    (newProps.columns.Some? ==> DistinctKeys(newProps.columns.value)) &&
    (newProps.rowsData.Some? ==> forall i :: 0 <= i < |newProps.rowsData.value| ==> DistinctKeys(newProps.rowsData.value[i]))
  }

  class Table<H> {
    var props: Props<H>
    /** The columns without `id`, fixed when the table is built. */
    const headerObj: Record
    /** The rendered `thead` and `tbody`. */
    var thead: Head
    var tbody: seq<BodyRow<H>>

    /** The props hold JavaScript objects. */
    ghost predicate Valid()
      reads this
    {
      WellFormed(props)
    }

    /** The head and body show exactly the current props. */
    ghost predicate Rendered()
      reads this
      ensures Rendered() ==>
        |tbody| == |props.rowsData| && thead.title == props.title && thead.colspan == |headerObj| + 1
    {
      thead == HeadView(props.title, headerObj) &&
      tbody == BodyView(headerObj, props.rowsData, props.editedCarId, props.onEdit, props.onDelete)
    }

    /** `new Table(props)` when the compatibility check passes. */
    constructor (props: Props<H>)
      requires WellFormed(props)
      requires CheckColumnsCompatibility(props.columns, props.rowsData).None?
      ensures Valid() && this.props == props
      ensures headerObj == WithoutKey(props.columns, IdKey)
      ensures Rendered()
    {
      this.props := props;
      headerObj := WithoutKey(props.columns, IdKey);
      thead := Head("", 0, []);
      tbody := [];
      new;
      RenderView();
    }

    /** `new Table(props)`, which throws when the compatibility check fails. */
    static method Create(props: Props<H>) returns (r: Result<Table<H>, string>)
      requires WellFormed(props)
      ensures r.Failure? <==>
        |props.rowsData| > 0 &&
        exists i :: 0 <= i < |props.rowsData| && CountProperties(props.rowsData[i]) != CountProperties(props.columns)
      ensures r.Failure? ==> r.error == IncompatibleColumnsMessage
      ensures r.Success? ==>
        fresh(r.value) && r.value.Valid() && r.value.props == props &&
        r.value.headerObj == WithoutKey(props.columns, IdKey) && r.value.Rendered()
    {
      var error := CheckColumnsCompatibility(props.columns, props.rowsData);
      if error.Some? {
        return Failure(error.value);
      }
      var table := new Table(props);
      return Success(table);
    }

    /** `renderHeadView` overwrites the head. */
    method RenderHeadView()
      modifies this`thead
      ensures thead == HeadView(props.title, headerObj)
    {
      thead := HeadView(props.title, headerObj);
    }

    /** `renderBodyView` empties the body, then appends one row per entry of `rowsData`. */
    method RenderBodyView()
      modifies this`tbody
      ensures tbody == BodyView(headerObj, props.rowsData, props.editedCarId, props.onEdit, props.onDelete)
    {
      tbody := [];
      tbody := tbody + BodyView(headerObj, props.rowsData, props.editedCarId, props.onEdit, props.onDelete);
    }

    /** `renderView`: the result depends on the props alone, so rendering again changes nothing. */
    method RenderView()
      modifies this`thead, this`tbody
      ensures Rendered()
    {
      RenderHeadView();
      RenderBodyView();
    }

    /** `updateProps`: shallow merge, then full re-render; neither `headerObj` nor the check is re-run. */
    method UpdateProps(newProps: PartialProps<H>)
      requires Valid() && WellFormedPartial(newProps)
      modifies this`props, this`thead, this`tbody
      ensures Valid() && props == Merge(old(props), newProps)
      ensures Rendered()
    {
      props := Merge(props, newProps);
      RenderView();
    }
  }

  /**
   * The header is not derived again on update: a table built with columns
   * `{id, brand}` still shows "Brand" after the columns `{id, model}` are merged in.
   */
  method HeaderKeepsBuildColumns<H>(callback: H) returns (labels: seq<string>, columns: Record)
    ensures labels == ["Brand", OptionsLabel]
    ensures columns == [Entry(IdKey, "ID"), Entry("model", "Model")]
  {
    var built := [Entry(IdKey, "ID"), Entry("brand", "Brand")];
    var newColumns := [Entry(IdKey, "ID"), Entry("model", "Model")];
    assert built[0].key != built[1].key && newColumns[0].key != newColumns[1].key;
    assert WithoutKey(built, IdKey) == [Entry("brand", "Brand")] by {
      assert built[0].key == IdKey && built[1].key != IdKey;
      assert WithoutKey(built[1..], IdKey) == [built[1]] + WithoutKey(built[1..][1..], IdKey);
    }
    var table := new Table(Props("Cars", built, [], None, callback, callback));
    table.UpdateProps(PartialProps(None, Some(newColumns), None, None, None, None));
    labels, columns := table.thead.labels, table.props.columns;
  }
}
