/** `save_to_csv`, reduced to what it writes: nothing for an empty list,
    otherwise a header taken from the first record's keys and one row per
    record, as `csv.DictWriter` (raising on extra keys, empty cell for a
    missing key or a None value) lays them out. */
module CsvExport {

  import opened Wrappers
  import opened Hits
  import opened Extract

  /** One data row of the file; None is written as an empty cell. */
  type Row = seq<Option<Value>>

  /** What the export leaves in the file. `badKeys` is non-empty when
      `writerows` stopped with a ValueError on the record after `rows`. */
  datatype Export =
    | NothingWritten
    | Written(header: seq<string>, rows: seq<Row>, badKeys: set<string>)

  /** The keys of `rec` that are not header columns. */
  function ExtraKeys(header: seq<string>, rec: Record): (ks: set<string>)
    ensures forall k :: k in ks <==> k !in header && k in Keys(rec)
  {
    set i | 0 <= i < |rec| && rec[i].key !in header :: rec[i].key
  }

  /** The cells of `rec` in header order, `rec.get(key, "")` for each key. */
  function RowOf(header: seq<string>, rec: Record): (row: Row)
    ensures |row| == |header|
    ensures forall j :: 0 <= j < |header| ==> row[j] == Lookup(rec, header[j])
  {
    if |header| == 0 then []
    else RowOf(header[..|header| - 1], rec) + [Lookup(rec, header[|header| - 1])]
  }

  /** `writer.writerows(data)`: rows are written in order until a record
      with keys outside the header raises. */
  function WriteRows(header: seq<string>, data: seq<Record>): (out: (seq<Row>, set<string>))
    requires forall i :: 0 <= i < |data| ==> DistinctKeys(data[i])
    ensures |out.0| <= |data|
    ensures forall i :: 0 <= i < |out.0| ==>
      out.0[i] == RowOf(header, data[i]) && ExtraKeys(header, data[i]) == {}
    ensures out.1 == {} ==> |out.0| == |data|
    ensures out.1 != {} ==> |out.0| < |data| && out.1 == ExtraKeys(header, data[|out.0|])
  {
    if |data| == 0 then ([], {})
    else
      var bad := ExtraKeys(header, data[0]);
      if bad != {} then ([], bad)
      else
        var rest := WriteRows(header, data[1..]);
        ([RowOf(header, data[0])] + rest.0, rest.1)
  }

  /** `save_to_csv(data)`. */
  function SaveToCsv(data: seq<Record>): (out: Export)
    requires forall i :: 0 <= i < |data| ==> DistinctKeys(data[i])
    ensures out.NothingWritten? <==> |data| == 0
    ensures out.Written? ==> out.header == Keys(data[0])
    ensures out.Written? ==>
      && |out.rows| <= |data|
      && (forall i :: 0 <= i < |out.rows| ==> out.rows[i] == RowOf(out.header, data[i]))
      && (forall i :: 0 <= i < |out.rows| ==> ExtraKeys(out.header, data[i]) == {})
      && (out.badKeys == {} <==> |out.rows| == |data|)
      && ((forall i :: 0 <= i < |data| ==> ExtraKeys(out.header, data[i]) == {}) ==> out.badKeys == {})
      && (out.badKeys == {} ==> forall i :: 0 <= i < |data| ==> ExtraKeys(out.header, data[i]) == {})
      && (out.badKeys != {} ==> out.badKeys == ExtraKeys(out.header, data[|out.rows|]))
  {
    if |data| == 0 then NothingWritten
    else
      var header := Keys(data[0]);
      var (rows, bad) := WriteRows(header, data);
      Written(header, rows, bad)
  }

  /** A record with exactly the output columns has no key outside them. */
  lemma NoExtraKeys(rec: Record)
    requires HasColumns(rec)
    ensures Keys(rec) == Columns
    ensures ExtraKeys(Columns, rec) == {}
  {
  }

  /** Exporting projected hits: nothing is written exactly when there are no
      hits; otherwise the header is the column list, no record is refused,
      and row `i` holds hit `i`'s reading of every column. */
  lemma ExportOfExtracted(hits: seq<RawHit>)
    ensures forall i :: 0 <= i < |hits| ==> DistinctKeys(ExtractListingInfo(hits)[i])
    ensures |hits| == 0 <==> SaveToCsv(ExtractListingInfo(hits)).NothingWritten?
    ensures |hits| > 0 ==>
      var out := SaveToCsv(ExtractListingInfo(hits));
      && out.header == Columns
      && out.badKeys == {}
      && |out.rows| == |hits|
      && forall i, j :: 0 <= i < |hits| && 0 <= j < |Columns| ==>
           out.rows[i][j] == Resolve(hits[i], Sources[j])
  {
    var data := ExtractListingInfo(hits);
    forall i | 0 <= i < |data| ensures DistinctKeys(data[i]) {
      ColumnKeysDistinct(data[i]);
    }
    if |hits| > 0 {
      forall i | 0 <= i < |data| ensures ExtraKeys(Columns, data[i]) == {} {
        NoExtraKeys(data[i]);
      }
      NoExtraKeys(data[0]);
      var out := SaveToCsv(data);
      forall i, j | 0 <= i < |hits| && 0 <= j < |Columns|
        ensures out.rows[i][j] == Resolve(hits[i], Sources[j])
      {
        ExtractOneByName(hits[i], j);
      }
    }
  }
}
