/**
 * The parts of a converted document that the chunking core reads. The
 * conversion library hands these over as duck-typed Python objects whose
 * attributes may or may not exist; each such attribute is a field here,
 * and an attribute that may be missing (or `None`) is an `Option`.
 */
module Docling {
  import opened Common

  /** A Python value found in a table grid: a plain `str`, or some other
      object that may carry a `text` attribute. `repr` is what `str(...)`
      gives for the object. */
  datatype Value = Str(s: string) | Obj(text: Option<string>, repr: string)

  /** `cell.text` when the cell has a `text` attribute, the cell itself
      when it is a string, and `str(cell)` otherwise. */
  function CellText(v: Value): string
  {
    match v
    case Str(s) => s
    case Obj(Some(t), _) => t
    case Obj(None, r) => r
  }

  /** `str(v)`. */
  function ToStr(v: Value): string
  {
    match v
    case Str(s) => s
    case Obj(_, r) => r
  }

  /** One entry of a grid that is a Python list: a list of cells, an object
      with a `cells` collection, or anything else. */
  datatype GridRow = ListRow(cells: seq<Value>) | ObjectRow(cells: seq<Value>) | OtherRow

  /** A cell of a grid's `cells` collection; `address` is its
      `(row, col)` pair when it has both attributes. */
  datatype AddressedCell = AddressedCell(address: Option<(int, int)>, value: Value)

  /** What a dataframe export gives: its column labels and its rows. */
  datatype DataFrame = DataFrame(columns: seq<Value>, values: seq<seq<Value>>)

  /** A table's `grid`: either a plain list of rows, or an object that may
      offer a dataframe export, a list export and an addressable cell
      collection. An export that is missing, raises or returns `None` is
      `None` here. */
  datatype Grid =
    | ListGrid(items: seq<GridRow>)
    | GridObject(dataframe: Option<DataFrame>, listExport: Option<seq<seq<Value>>>, cells: Option<seq<AddressedCell>>)

  /** A table's data: its `grid` (absent or `None` is `None`) and what its
      markdown export returns (absent, raising or `None` is `None`). */
  datatype TableData = TableData(grid: Option<Grid>, markdown: Option<string>)

  /** An item's `data` attribute: missing altogether, or present with a
      value that may be `None`. */
  datatype DataAttr = NoData | Data(value: Option<TableData>)

  /** A provenance record; `pageNo` is its `page_no`. */
  datatype Prov = Prov(pageNo: Option<int>)

  /** A document item as the chunking code sees it: its `label` (here
      `kind`, since `label` is a Dafny keyword), provenance
      records, captions (each as `str(...)` renders it), table data and the
      `cref` of its reference. */
  datatype DocItem = DocItem(
    kind: Option<string>,
    prov: seq<Prov>,
    captions: seq<string>,
    data: DataAttr,
    ref: Option<string>)

  /** The owning document's table registry, `document.tables`. */
  datatype Document = Document(tables: seq<DocItem>)
}
