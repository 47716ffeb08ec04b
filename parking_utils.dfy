/** The row mapper of src/utils/index.js: database column names to model field names. */
module ParkingUtils {

  /** A value in a column the mapper does not name. */
  datatype Cell = IntCell(i: int) | TextCell(s: string)

  /**
   * A row of the `parking` table as the driver returns it. The five named columns
   * are those of the table; `otherColumns` holds anything else a row may carry.
   * The model represents the TIMESTAMP columns as epoch milliseconds; node-postgres
   * itself returns them as `Date` values.
   */
  datatype DbRow = DbRow(
    id: int,
    vehicleType: string,  // the `type` column or field
    enter_time: int,
    exit_time: int,
    price: int,
    otherColumns: map<string, Cell>)

  /** A parking record as the API returns it. */
  datatype ParkingRecord = ParkingRecord(
    id: int,
    vehicleType: string,  // the `type` column or field
    enterTime: int,
    exitTime: int,
    price: int)

  /** mapParkingDBToModel: keep the five named columns, renaming the two time columns. */
  function MapParkingDBToModel(row: DbRow): (r: ParkingRecord)
    ensures r.id == row.id && r.vehicleType == row.vehicleType && r.price == row.price
    ensures r.enterTime == row.enter_time && r.exitTime == row.exit_time
  {
    ParkingRecord(row.id, row.vehicleType, row.enter_time, row.exit_time, row.price)
  }

  /** The inverse renaming: a record back to a row that has exactly the five columns. */
  function ModelToDbRow(m: ParkingRecord): DbRow {
    DbRow(m.id, m.vehicleType, m.enterTime, m.exitTime, m.price, map[])
  }

  /** Renaming back recovers the row, less the columns the mapper drops. */
  lemma MapParkingDBToModelRoundTrip(row: DbRow)
    ensures ModelToDbRow(MapParkingDBToModel(row)) == row.(otherColumns := map[])
    ensures MapParkingDBToModel(ModelToDbRow(MapParkingDBToModel(row))) == MapParkingDBToModel(row)
  {
  }

  /** Every record comes from a row: mapping the renamed-back record gives it again. */
  lemma ModelToDbRowRoundTrip(m: ParkingRecord)
    ensures MapParkingDBToModel(ModelToDbRow(m)) == m
  {
  }

  /** Columns other than the five named ones have no influence on the record. */
  lemma MapParkingDBToModelDropsOtherColumns(row: DbRow, other: map<string, Cell>)
    ensures MapParkingDBToModel(row.(otherColumns := other)) == MapParkingDBToModel(row)
  {
  }

  /** `rows.map(mapParkingDBToModel)`: one record per row, in the same order. */
  function MapRows(rows: seq<DbRow>): (r: seq<ParkingRecord>)
    ensures |r| == |rows|
    ensures forall i :: 0 <= i < |rows| ==> r[i] == MapParkingDBToModel(rows[i])
  {
    if rows == [] then [] else [MapParkingDBToModel(rows[0])] + MapRows(rows[1..])
  }

  /** Mapping distributes over concatenation of result sets. */
  lemma {:induction false} MapRowsAppend(a: seq<DbRow>, b: seq<DbRow>)
    ensures MapRows(a + b) == MapRows(a) + MapRows(b)
  {
    if a == [] {
      assert a + b == b;
    } else {
      assert (a + b)[1..] == a[1..] + b;
      MapRowsAppend(a[1..], b);
    }
  }
}
