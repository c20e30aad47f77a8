/**
 * The product catalog as `carregar_dados` builds it from the spreadsheet: codes
 * normalised, numeric columns read leniently, volume and weight defaulted.
 */
module Catalog {
  import opened Wrappers
  import opened Codes
  import opened Numbers

  /** The spreadsheet columns the application reads, after its renaming table. */
  datatype Column = CodeColumn | NameColumn | LengthColumn | WidthColumn | HeightColumn | VolumeColumn | WeightColumn

  /**
   * One spreadsheet line. `code` and `name` are the cells as `str()` renders them;
   * the numeric cells are raw. A cell of a column the sheet lacks is never read.
   */
  datatype SheetRow = SheetRow(
    code: string, name: string,
    length: Cell, width: Cell, height: Cell, volume: Cell, weight: Cell)

  datatype Sheet = Sheet(columns: set<Column>, rows: seq<SheetRow>)

  /** A catalog row once loaded; lengths in centimetres, volume in cubic metres, weight in kg. */
  datatype Product = Product(
    code: string, name: string,
    length: real, width: real, height: real, volume: real, weight: real)

  /**
   * The loaded catalog, with whether the optional name column and all three
   * dimension columns were present (the search needs them to build its records).
   */
  datatype LoadedCatalog = LoadedCatalog(hasName: bool, hasDimensions: bool, products: seq<Product>)

  /** Why loading fails: no code column, or no volume column and a dimension column missing. */
  datatype LoadError = MissingCodeColumn | MissingDimensionColumn(column: Column)

  /** Lengths are in centimetres and volumes in cubic metres. */
  const CubicCentimetresPerCubicMetre: real := 1000000.0

  /** The volume in cubic metres of a box measured in centimetres. */
  function CubicMetres(length: real, width: real, height: real): real {
    length * width * height / CubicCentimetresPerCubicMetre
  }

  /** A numeric column's value: `to_float` of the cell when the column exists, else 0. */
  function Numeric(columns: set<Column>, column: Column, cell: Cell): real {
    if column in columns then ToFloat(cell) else 0.0
  }

  /** One loaded product; the name is empty when the sheet has no name column. */
  function LoadProduct(columns: set<Column>, row: SheetRow): Product {
    var length := Numeric(columns, LengthColumn, row.length);
    var width := Numeric(columns, WidthColumn, row.width);
    var height := Numeric(columns, HeightColumn, row.height);
    Product(
      NormCode(row.code),
      if NameColumn in columns then row.name else "",
      length, width, height,
      if VolumeColumn in columns then ToFloat(row.volume)
      else CubicMetres(length, width, height),
      Numeric(columns, WeightColumn, row.weight))
  }

  predicate HasDimensions(columns: set<Column>) {
    LengthColumn in columns && WidthColumn in columns && HeightColumn in columns
  }

  /** The first dimension column the volume formula reads and the sheet lacks. */
  function FirstMissingDimension(columns: set<Column>): Column
    requires !HasDimensions(columns)
  {
    if LengthColumn !in columns then LengthColumn
    else if WidthColumn !in columns then WidthColumn
    else HeightColumn
  }

  /** `carregar_dados`, once the sheet has been read and its columns renamed. */
  function Load(sheet: Sheet): (r: Result<LoadedCatalog, LoadError>)
    ensures r.Failure? <==>
      CodeColumn !in sheet.columns || (VolumeColumn !in sheet.columns && !HasDimensions(sheet.columns))
    ensures CodeColumn !in sheet.columns ==> r == Failure(MissingCodeColumn)
    ensures r.Success? ==>
      && |r.value.products| == |sheet.rows|
      && r.value.hasName == (NameColumn in sheet.columns)
      && r.value.hasDimensions == HasDimensions(sheet.columns)
      && forall i :: 0 <= i < |sheet.rows| ==> r.value.products[i] == LoadProduct(sheet.columns, sheet.rows[i])
  {
    var columns := sheet.columns;
    if CodeColumn !in columns then
      Failure(MissingCodeColumn)
    else if VolumeColumn !in columns && !HasDimensions(columns) then
      Failure(MissingDimensionColumn(FirstMissingDimension(columns)))
    else
      Success(LoadedCatalog(
        NameColumn in columns,
        HasDimensions(columns),
        seq(|sheet.rows|, i requires 0 <= i < |sheet.rows| => LoadProduct(columns, sheet.rows[i]))))
  }

  /**
   * The defaults of one loaded product: its code normalised; without a volume column
   * its volume is length x width x height converted from cubic centimetres; without
   * a weight column its weight is 0.
   */
  lemma ProductDefaults(columns: set<Column>, row: SheetRow)
    ensures LoadProduct(columns, row).code == NormCode(row.code)
    ensures VolumeColumn !in columns ==>
      var p := LoadProduct(columns, row);
      p.volume == CubicMetres(p.length, p.width, p.height)
    ensures VolumeColumn in columns ==> LoadProduct(columns, row).volume == ToFloat(row.volume)
    ensures WeightColumn !in columns ==> LoadProduct(columns, row).weight == 0.0
    ensures NameColumn !in columns ==> LoadProduct(columns, row).name == ""
  {
  }

  /** Converting back: the product of the three dimensions is the volume in cubic centimetres. */
  lemma CubicMetresScale(length: real, width: real, height: real)
    ensures CubicMetres(length, width, height) * CubicCentimetresPerCubicMetre == length * width * height
  {
  }

  /** The same defaults, over every product of a loaded catalog. */
  lemma LoadDefaults(sheet: Sheet, i: int)
    requires Load(sheet).Success? && 0 <= i < |sheet.rows|
    ensures Load(sheet).value.products[i].code == NormCode(sheet.rows[i].code)
    ensures VolumeColumn !in sheet.columns ==>
      var p := Load(sheet).value.products[i];
      p.volume == CubicMetres(p.length, p.width, p.height)
    ensures VolumeColumn in sheet.columns ==> Load(sheet).value.products[i].volume == ToFloat(sheet.rows[i].volume)
    ensures WeightColumn !in sheet.columns ==> Load(sheet).value.products[i].weight == 0.0
    ensures NameColumn !in sheet.columns ==> Load(sheet).value.products[i].name == ""
  {
    ProductDefaults(sheet.columns, sheet.rows[i]);
  }

  /** A 100 cm cube holds one cubic metre. */
  lemma MetreCube()
    ensures LoadProduct({CodeColumn, LengthColumn, WidthColumn, HeightColumn},
      SheetRow("1", "", Number(100.0), Number(100.0), Number(100.0), Missing, Missing)).volume == 1.0
  {
  }

  /** The index of the first product carrying `code`, as `df[df["Codigo"] == code].iloc[0]` picks it. */
  function Lookup(products: seq<Product>, code: string): (r: Option<nat>)
    ensures r.Some? ==> r.value < |products|
  {
    LookupFrom(products, code, 0)
  }

  /** The index of the first product at or after `from` carrying `code`. */
  function LookupFrom(products: seq<Product>, code: string, from: nat): (r: Option<nat>)
    requires from <= |products|
    ensures r.Some? ==> from <= r.value < |products|
    decreases |products| - from
  {
    if from == |products| then None
    else if products[from].code == code then Some(from)
    else LookupFrom(products, code, from + 1)
  }

  /**
   * The lookup finds the first product carrying the code, and finds nothing exactly
   * when no product carries it.
   */
  lemma LookupSpec(products: seq<Product>, code: string)
    ensures var r := Lookup(products, code);
      && (r.Some? ==> products[r.value].code == code)
      && (r.Some? ==> forall j :: 0 <= j < r.value ==> products[j].code != code)
      && (r.None? <==> forall j :: 0 <= j < |products| ==> products[j].code != code)
  {
    LookupFromSpec(products, code, 0);
  }

  lemma {:induction false} LookupFromSpec(products: seq<Product>, code: string, from: nat)
    requires from <= |products|
    ensures var r := LookupFrom(products, code, from);
      && (r.Some? ==> products[r.value].code == code)
      && (r.Some? ==> forall j :: from <= j < r.value ==> products[j].code != code)
      && (r.None? <==> forall j :: from <= j < |products| ==> products[j].code != code)
    decreases |products| - from
  {
    if from < |products| && products[from].code != code {
      LookupFromSpec(products, code, from + 1);
    }
  }
}
