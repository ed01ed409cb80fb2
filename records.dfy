/**
 * The two record schemas (`price_data_cols`, `co2_data_cols`), the composite
 * record key, and the on-disk record store as a sequence of batch files.
 */
module Records {
  import opened Wrappers
  import opened Text

  /** A metric parsed with `to_float`: a value, or NaN where parsing failed or the field was absent. */
  datatype Metric = Present(v: real) | Missing

  /** A stored row: its key, the fetch timestamp that produced it, and the dataset's columns. */
  datatype Versioned<B> = Versioned(id: string, created: int, body: B)

  /** The non-key columns of `price_data_cols`; times are Unix seconds. */
  datatype PriceBody = PriceBody(
    region: string,
    voltageLevel: string,
    from: int,
    to: int,
    voltage: string,
    dnoRegion: string,
    penniesPerKwh: Metric)

  /** One `(fuel, perc)` entry of a generation mix. */
  datatype FuelShare = FuelShare(fuel: string, perc: real)

  /** The non-key columns of `co2_data_cols`; times are Unix seconds. */
  datatype IntensityBody = IntensityBody(
    from: int,
    to: int,
    region: string,
    postcode: string,
    source: string,
    regionid: string,
    dnoregion: string,
    shortname: string,
    sourcePostcode: string,
    intensityForecast: Metric,
    intensityIndex: string,
    intensityActual: Metric,
    generationmix: seq<FuelShare>)

  type PriceRecord = Versioned<PriceBody>
  type IntensityRecord = Versioned<IntensityBody>

  /** The width of one price or intensity slot, in seconds. */
  const SlotSeconds: int := 1800

  /** The placeholder written for an absent region, postcode or optional column. */
  const NotAvailable: string := "NA"

  /** `value if value else "NA"` for a string argument (the empty string is falsy). */
  function OrNA(s: string): (r: string)
    ensures r != ""
    ensures s != "" ==> r == s
  {
    if s == "" then NotAvailable else s
  }

  // ---------------------------------------------------------------------
  // The composite key
  // ---------------------------------------------------------------------

  /**
   * `"_".join([a, b, str(from)]).replace(" ", "_").upper()`: the key of a price
   * row (a = region, b = voltageLevel) or of an intensity row (a = region,
   * b = postcode).
   */
  function CompositeId(a: string, b: string, from: int): string
  {
    NormaliseKey(a + "_" + b + "_" + IntToDecimal(from))
  }

  /** The timestamp field of a key: its last '_'-separated field read as an integer. */
  function FromOfId(id: string): Option<int>
  {
    ParseInt(AfterLastUnderscore(id))
  }

  /** The key's timestamp can be read back from the key, whatever the other two parts are. */
  lemma FromOfCompositeId(a: string, b: string, from: int)
    ensures FromOfId(CompositeId(a, b, from)) == Some(from)
  {
    var d := IntToDecimal(from);
    NormaliseKeyConcat(a + "_" + b + "_", d);
    NormaliseKeyConcat(a + "_" + b, "_");
    NormaliseKeyDecimal(from);
    assert NormaliseKey("_") == "_";
    assert CompositeId(a, b, from) == NormaliseKey(a + "_" + b) + "_" + d;
    IntToDecimalChars(from);
    AfterLastUnderscoreSuffix(NormaliseKey(a + "_" + b), d);
    IntToDecimalRoundTrip(from);
  }

  /** Rows with different timestamps never share a key, even across regions and voltage levels. */
  lemma CompositeIdDistinguishesTimes(a: string, b: string, a': string, b': string, from: int, from': int)
    requires from != from'
    ensures CompositeId(a, b, from) != CompositeId(a', b', from')
  {
    FromOfCompositeId(a, b, from);
    FromOfCompositeId(a', b', from');
  }

  // ---------------------------------------------------------------------
  // The record store: one directory of batch files per dataset
  // ---------------------------------------------------------------------

  /** `price_<fetch id>` / `CO2_<fetch id>`, or the consolidated file of the directory. */
  datatype FileName = FetchFile(fetchId: int) | ConsolidatedFile

  datatype Batch<B> = Batch(name: FileName, rows: seq<Versioned<B>>)

  /** `pd.read_parquet(directory)`: every batch's rows, batch after batch. */
  function LoadAll<B>(files: seq<Batch<B>>): seq<Versioned<B>>
    decreases |files|
  {
    if files == [] then [] else LoadAll(files[..|files| - 1]) + files[|files| - 1].rows
  }

  predicate HasFile<B>(files: seq<Batch<B>>, name: FileName)
  {
    exists i :: 0 <= i < |files| && files[i].name == name
  }

  /** `to_parquet(directory / name)`: a new file, or the old file of that name overwritten in place. */
  function Put<B>(files: seq<Batch<B>>, b: Batch<B>): (r: seq<Batch<B>>)
    ensures HasFile(r, b.name) && b in r
    ensures !HasFile(files, b.name) ==> r == files + [b]
    ensures HasFile(files, b.name) ==> |r| == |files|
    ensures forall i :: 0 <= i < |files| && files[i].name != b.name ==> r[i] == files[i]
    decreases |files|
  {
    if files == [] then assert [b][0].name == b.name; [b]
    else if files[0].name == b.name then assert ([b] + files[1..])[0].name == b.name; [b] + files[1..]
    else
      var rest := Put(files[1..], b);
      PutBehindHead(files, b, rest);
      [files[0]] + rest
  }

  /** Putting behind a head of another name keeps the head and puts into the tail. */
  lemma PutBehindHead<B>(files: seq<Batch<B>>, b: Batch<B>, rest: seq<Batch<B>>)
    requires files != [] && files[0].name != b.name
    requires HasFile(rest, b.name)
    requires !HasFile(files[1..], b.name) ==> rest == files[1..] + [b]
    requires HasFile(files[1..], b.name) ==> |rest| == |files[1..]|
    requires forall i :: 0 <= i < |files[1..]| && files[1..][i].name != b.name ==> rest[i] == files[1..][i]
    ensures var r := [files[0]] + rest;
      && HasFile(r, b.name)
      && (!HasFile(files, b.name) ==> r == files + [b])
      && (HasFile(files, b.name) ==> |r| == |files|)
      && (forall i :: 0 <= i < |files| && files[i].name != b.name ==> r[i] == files[i])
  {
    var r := [files[0]] + rest;
    var tail := files[1..];
    assert HasFile(files, b.name) <==> HasFile(tail, b.name) by {
      if HasFile(files, b.name) {
        var i :| 0 <= i < |files| && files[i].name == b.name;
        assert tail[i - 1] == files[i];
      }
      if HasFile(tail, b.name) {
        var i :| 0 <= i < |tail| && tail[i].name == b.name;
        assert files[i + 1] == tail[i];
      }
    }
    var j :| 0 <= j < |rest| && rest[j].name == b.name;
    assert r[j + 1] == rest[j];
    if !HasFile(tail, b.name) {
      assert files == [files[0]] + tail;
    }
    forall i | 0 <= i < |files| && files[i].name != b.name ensures r[i] == files[i] {
      if i > 0 {
        assert files[i] == tail[i - 1] && r[i] == rest[i - 1];
      }
    }
  }
}
