/**
 * `run_ingestion_pipeline`: check the five settings, point the schema's key
 * slot at the configured key, pick the newest snapshot in the source
 * container, fold, rename and normalise it, replace by key the rows of the
 * master table in the target container, write the result back over the
 * master table, and report a summary.
 *
 * The object store is modelled as a value: each container has a listing
 * order and a map from blob names to the tables their CSV text parses to.
 */
module Pipeline {
  import opened Results
  import opened Text
  import opened Snapshot
  import opened Schema
  import opened Frames
  import opened Incremental

  // ---------------------------------------------------------------- settings

  /** The five environment settings, each possibly unset. */
  datatype Config = Config(
    connection: Option<string>,       // AZURE_BLOB_CONNECTION_STRING
    sourceContainer: Option<string>,  // AZURE_BLOB_CONTAINER_NAME_DNLD
    targetContainer: Option<string>,  // AZURE_BLOB_CONTAINER_NAME_UPLD
    keyCol: Option<string>,           // KEY_COL
    targetBlob: Option<string>)       // PRE_FILE_NAME

  /** A setting is truthy: set, and not the empty string. */
  predicate Provided(s: Option<string>) {
    s.Some? && s.value != ""
  }

  /** `all([conn_str, dnld_con_name, upld_con_name, key_col_original, pre_pblob])`. */
  predicate ConfigComplete(c: Config) {
    && Provided(c.connection)
    && Provided(c.sourceContainer)
    && Provided(c.targetContainer)
    && Provided(c.keyCol)
    && Provided(c.targetBlob)
  }

  // ---------------------------------------------------------------- storage

  /** A container: its blob names in listing order, and the table each blob parses to. */
  datatype Container = Container(listing: seq<string>, files: map<string, Frame>)

  type Store = map<string, Container>

  /** Every stored table is rectangular, as every table `read_csv` builds is. */
  predicate StoreWellFormed(st: Store) {
    forall c, n :: c in st && n in st[c].files ==> WellFormed(st[c].files[n])
  }

  datatype PipelineError =
    | ConfigurationError                      // the `ValueError` of the settings check
    | ContainerNotFound(container: string)    // listing a container that does not exist
    | BlobNotFound(container: string, name: string) // downloading a blob that does not exist
    | Discovery(snapshot: SnapshotError)       // `find_latest_csv` raises
    | MergeFailed(merge: MergeError)        // the key lookups or `concat` raise

  /** `list_csv_blobs`: the names in the container that end in `csv`, in listing order. */
  function ListCsvBlobs(st: Store, container: string): (r: Result<seq<string>, PipelineError>)
    ensures r.Success? <==> container in st
    ensures r.Failure? ==> r.error == ContainerNotFound(container)
    ensures r.Success? ==> forall n :: n in r.value <==> n in st[container].listing && EndsWith(n, "csv")
    ensures r.Success? ==> r.value == CsvBlobNames(st[container].listing)
  {
    if container in st then Success(CsvBlobNames(st[container].listing))
    else Failure(ContainerNotFound(container))
  }

  /** `read_file`: the table the named blob parses to. */
  function ReadFile(st: Store, container: string, name: string): (r: Result<Frame, PipelineError>)
    requires StoreWellFormed(st)
    ensures r.Success? <==> container in st && name in st[container].files
    ensures r.Success? ==> r.value == st[container].files[name] && WellFormed(r.value)
    ensures r.Failure? ==> r.error == BlobNotFound(container, name)
  {
    if container in st && name in st[container].files then Success(st[container].files[name])
    else Failure(BlobNotFound(container, name))
  }

  /** `upload_df_to_blob(..., overwrite=True)`: the blob now holds `f`; a new name joins the listing. */
  function Publish(st: Store, container: string, name: string, f: Frame): (r: Store)
    requires container in st
    ensures r.Keys == st.Keys
    ensures r[container].files == st[container].files[name := f]
    ensures name in r[container].listing
    ensures forall n :: n in r[container].listing <==> n in st[container].listing || n == name
    ensures forall c :: c in st && c != container ==> r[c] == st[c]
    ensures StoreWellFormed(st) && WellFormed(f) ==> StoreWellFormed(r)
  {
    var before := st[container];
    var listing := if name in before.listing then before.listing else before.listing + [name];
    st[container := Container(listing, before.files[name := f])]
  }

  /** Publishing the same table twice is publishing it once. */
  lemma PublishTwice(st: Store, container: string, name: string, f: Frame)
    requires container in st
    ensures Publish(Publish(st, container, name, f), container, name, f) == Publish(st, container, name, f)
  {
    var once := Publish(st, container, name, f);
    assert once[container].files[name := f] == once[container].files;
  }

  // ---------------------------------------------------------------- the run

  /** The API summary of a successful run. */
  datatype Summary = Summary(
    status: string,
    totalRecords: nat,
    newShape: (nat, nat),
    previousShape: (nat, nat),
    keyColumnUsed: string,
    targetBlob: string)

  /** The increment after header folding, the schema rename, `preprocessed_df` and the flag mapping. */
  function Prepared(raw: Frame, schema: map<string, string>): (r: Frame)
    requires WellFormed(raw)
    ensures WellFormed(r) && Shape(r) == Shape(raw)
  {
    MapFlags(Preprocess(RenameFrame(raw.(columns := FoldHeaders(raw.columns)), schema)))
  }

  /** What a successful run computes: the summary and the table it writes. */
  datatype Run = Run(summary: Summary, table: Frame)

  /** Steps 1 of the run: list the source container, pick the newest snapshot, download it. */
  function FetchLatest(st: Store, src: string): (r: Result<Frame, PipelineError>)
    requires StoreWellFormed(st)
    ensures r.Success? ==> WellFormed(r.value)
    ensures r.Success? <==>
              && src in st
              && FindLatestCsv(CsvBlobNames(st[src].listing)).Success?
              && FindLatestCsv(CsvBlobNames(st[src].listing)).value in st[src].files
    ensures r.Success? ==> r.value == st[src].files[FindLatestCsv(CsvBlobNames(st[src].listing)).value]
  {
    match ListCsvBlobs(st, src)
    case Failure(e) => Failure(e)
    case Success(names) =>
      match FindLatestCsv(names)
      case Failure(e) => Failure(Discovery(e))
      case Success(latest) => ReadFile(st, src, latest)
  }

  /** Everything a run with complete settings does before its single write, with
      the run's schema already resolved. */
  function Ingest(config: Config, schema: map<string, string>, st: Store): (r: Result<Run, PipelineError>)
    requires StoreWellFormed(st) && ConfigComplete(config)
    ensures r.Success? ==> config.targetContainer.value in st && WellFormed(r.value.table)
  {
    var dst := config.targetContainer.value;
    var key := config.keyCol.value;
    var blob := config.targetBlob.value;
    match FetchLatest(st, config.sourceContainer.value)
    case Failure(e) => Failure(e)
    case Success(raw) =>
      var inc := Prepared(raw, schema);
      match ReadFile(st, dst, blob)
      case Failure(e) => Failure(e)
      case Success(prev) =>
        match Merge(prev, inc, key)
        case Failure(e) => Failure(MergeFailed(e))
        case Success(final) =>
          Success(Run(Summary("SUCCESS", |final.rows|, Shape(raw), Shape(prev), key, blob), final))
  }

  /** The outcome of a run and the store it leaves behind. */
  datatype Outcome = Outcome(result: Result<Summary, PipelineError>, store: Store)

  /** `run_ingestion_pipeline`: the run either fails and writes nothing, or writes
      the merged table over the target blob as its last step. */
  function RunPipeline(config: Config, udfCols: map<string, string>, st: Store): (o: Outcome)
    requires StoreWellFormed(st)
    ensures StoreWellFormed(o.store)
    ensures !ConfigComplete(config) ==> o == Outcome(Failure(ConfigurationError), st)
    ensures o.result.Failure? ==> o.store == st
    ensures o.result.Success? ==>
              && config.targetContainer.value in st
              && o.store.Keys == st.Keys
              && (forall c :: c in st && c != config.targetContainer.value ==> o.store[c] == st[c])
    ensures o.result.Success? ==>
              && config.targetContainer.value in o.store
              && config.targetBlob.value in o.store[config.targetContainer.value].files
              && o.store == Publish(st, config.targetContainer.value, config.targetBlob.value,
                                    o.store[config.targetContainer.value].files[config.targetBlob.value])
  {
    if !ConfigComplete(config) then Outcome(Failure(ConfigurationError), st)
    else
      match Ingest(config, Override(udfCols, config.keyCol.value), st)
      case Failure(e) => Outcome(Failure(e), st)
      case Success(run) =>
        Outcome(Success(run.summary), Publish(st, config.targetContainer.value, config.targetBlob.value, run.table))
  }


  // ---------------------------------------------------------------- properties of a run

  /** A run succeeds exactly when the settings are complete, a newest snapshot is
      found and downloaded, the master table is downloaded, and the merge succeeds. */
  lemma SuccessExactly(config: Config, udfCols: map<string, string>, st: Store)
    requires StoreWellFormed(st)
    ensures RunPipeline(config, udfCols, st).result.Success? <==>
              && ConfigComplete(config)
              && FetchLatest(st, config.sourceContainer.value).Success?
              && ReadFile(st, config.targetContainer.value, config.targetBlob.value).Success?
              && Merge(st[config.targetContainer.value].files[config.targetBlob.value],
                       Prepared(FetchLatest(st, config.sourceContainer.value).value, Override(udfCols, config.keyCol.value)),
                       config.keyCol.value).Success?
  {
  }

  /** The summary of a successful run: the status, the configured key and target
      blob, the increment's shape as read, the master table's shape, and the
      row-count law for the table written — every master row whose key is not
      in the increment, plus every increment row. */
  lemma SummaryOfRun(config: Config, udfCols: map<string, string>, st: Store)
    requires StoreWellFormed(st)
    requires RunPipeline(config, udfCols, st).result.Success?
    ensures ConfigComplete(config) && FetchLatest(st, config.sourceContainer.value).Success?
    ensures var s := RunPipeline(config, udfCols, st).result.value;
            var dst := config.targetContainer.value;
            var blob := config.targetBlob.value;
            var key := config.keyCol.value;
            var raw := FetchLatest(st, config.sourceContainer.value).value;
            var inc := Prepared(raw, Override(udfCols, key));
            var prev := st[dst].files[blob];
            var written := RunPipeline(config, udfCols, st).store[dst].files[blob];
            && WellFormed(prev)
            && s.status == "SUCCESS"
            && s.keyColumnUsed == key
            && s.targetBlob == blob
            && s.newShape == Shape(raw)
            && s.previousShape == Shape(prev)
            && Merge(prev, inc, key) == Success(written)
            && s.totalRecords == |written.rows|
            && s.totalRecords == |Survivors(prev, inc, key)| + |raw.rows|
            && s.totalRecords <= |prev.rows| + |raw.rows|
  {
    var dst := config.targetContainer.value;
    var blob := config.targetBlob.value;
    var key := config.keyCol.value;
    var raw := FetchLatest(st, config.sourceContainer.value).value;
    var inc := Prepared(raw, Override(udfCols, key));
    var prev := st[dst].files[blob];
    MergeRowCount(prev, inc, key);
  }

  /** An increment whose prepared table lacks the key column fails the run with
      `MissingKeyColumn` before anything is written. */
  lemma MissingKeyWritesNothing(config: Config, udfCols: map<string, string>, st: Store)
    requires StoreWellFormed(st) && ConfigComplete(config)
    requires FetchLatest(st, config.sourceContainer.value).Success?
    requires config.keyCol.value !in Prepared(FetchLatest(st, config.sourceContainer.value).value, Override(udfCols, config.keyCol.value)).columns
    requires ReadFile(st, config.targetContainer.value, config.targetBlob.value).Success?
    ensures RunPipeline(config, udfCols, st) == Outcome(Failure(MergeFailed(MissingKeyColumn(Increment))), st)
  {
  }

  /** Running again on the store a successful run left behind, with the master
      table in another container than the snapshots, writes the same table again.
      This holds of the modelled store, where a written table reads back exactly
      as it was written; `EmptyKeyRerunGrows` shows a table for which the CSV
      round trip breaks it. */
  lemma RerunChangesNothing(config: Config, udfCols: map<string, string>, st: Store)
    requires StoreWellFormed(st)
    requires RunPipeline(config, udfCols, st).result.Success?
    requires config.sourceContainer != config.targetContainer
    ensures var st' := RunPipeline(config, udfCols, st).store;
            && RunPipeline(config, udfCols, st').result.Success?
            && RunPipeline(config, udfCols, st').store == st'
            && RunPipeline(config, udfCols, st').result.value.totalRecords == RunPipeline(config, udfCols, st).result.value.totalRecords
  {
    var dst := config.targetContainer.value;
    var blob := config.targetBlob.value;
    var key := config.keyCol.value;
    var st' := RunPipeline(config, udfCols, st).store;
    SummaryOfRun(config, udfCols, st);
    assert FetchLatest(st', config.sourceContainer.value) == FetchLatest(st, config.sourceContainer.value);
    var inc := Prepared(FetchLatest(st, config.sourceContainer.value).value, Override(udfCols, key));
    var prev := st[dst].files[blob];
    var written := st'[dst].files[blob];
    MergeIdempotent(prev, inc, key);
    PublishTwice(st, dst, blob, written);
  }

  /** The part of the `to_csv` then `read_csv` round trip that this model follows:
      an empty text cell is written as an empty field, and `read_csv` reads an
      empty field back as NaN. Every other cell is kept. */
  function EmptyAsMissing(f: Frame): (r: Frame)
    ensures r.columns == f.columns && r.objectCols == f.objectCols && |r.rows| == |f.rows|
    ensures forall i :: 0 <= i < |f.rows| ==> |r.rows[i]| == |f.rows[i]|
    ensures forall i, j :: 0 <= i < |f.rows| && 0 <= j < |f.rows[i]| ==>
              r.rows[i][j] == if f.rows[i][j] == Str("") then NaN else f.rows[i][j]
  {
    f.(rows := seq(|f.rows|, i requires 0 <= i < |f.rows| =>
                 seq(|f.rows[i]|, j requires 0 <= j < |f.rows[i]| =>
                   if f.rows[i][j] == Str("") then NaN else f.rows[i][j])))
  }

  // A master holding key `K1`, and an increment whose key cell was `()` and
  // was normalised to the empty string.
  const SentinelColumns: seq<string> := ["key"]
  const SentinelMaster: Frame := Frame(SentinelColumns, [true], [[Str("K1")]])
  const SentinelIncrement: Frame := Frame(SentinelColumns, [true], [[Str("")]])
  // What the first run writes, and what `read_csv` gives back from it.
  const SentinelWritten: Frame := Frame(SentinelColumns, [true], [[Str("K1")], [Str("")]])
  const SentinelReread: Frame := Frame(SentinelColumns, [true], [[Str("K1")], [NaN]])

  lemma SentinelFirstSurvivors()
    ensures Survivors(SentinelMaster, SentinelIncrement, "key") == [[Str("K1")]]
  {
    var inc := SentinelIncrement;
    assert FirstPos(SentinelColumns, "key") == 0;
    assert CellAt(inc.rows[0], SentinelColumns, "key") == Str("");
    assert KeySet(inc, "key") == {Str("")};
    assert CellAt(SentinelMaster.rows[0], SentinelColumns, "key") !in KeySet(inc, "key");
  }

  /** The first run writes the master row, then the increment row. */
  lemma SentinelFirstMerge()
    ensures Merge(SentinelMaster, SentinelIncrement, "key") == Success(SentinelWritten)
  {
    assert multiset(SentinelColumns)["key"] == 1;
    SentinelFirstSurvivors();
    MergeIsConcatEq(SentinelMaster, SentinelIncrement, "key");
    var kept := KeptFrame(SentinelMaster, SentinelIncrement, "key");
    var stacked := Stacked(kept, SentinelIncrement);
    assert stacked.objectCols == [true] by { assert stacked.objectCols[0]; }
    assert stacked.rows == [[Str("K1")]] + [[Str("")]];
    assert kept.columns == SentinelIncrement.columns;
    assert Concat(kept, SentinelIncrement) == Success(stacked);
    assert stacked == SentinelWritten;
  }

  /** The empty key cell is read back as NaN. */
  lemma SentinelReadBack()
    ensures EmptyAsMissing(SentinelWritten) == SentinelReread
  {
    var r := EmptyAsMissing(SentinelWritten);
    assert r.rows[0] == [Str("K1")];
    assert r.rows[1] == [NaN];
  }

  lemma SentinelSecondSurvivors()
    ensures Survivors(SentinelReread, SentinelIncrement, "key") == [[Str("K1")], [NaN]]
  {
    var master := SentinelReread;
    var inc := SentinelIncrement;
    assert FirstPos(SentinelColumns, "key") == 0;
    assert CellAt(inc.rows[0], SentinelColumns, "key") == Str("");
    assert KeySet(inc, "key") == {Str("")};
    var keys := KeySet(inc, "key");
    assert CellAt(master.rows[0], SentinelColumns, "key") !in keys;
    assert CellAt(master.rows[1], SentinelColumns, "key") !in keys;
    KeptAllOrNone(master.rows, SentinelColumns, "key", keys);
  }

  /** The second run keeps both reread rows and appends the increment row again. */
  lemma SentinelSecondMerge()
    ensures Merge(SentinelReread, SentinelIncrement, "key")
            == Success(Frame(SentinelColumns, [true], [[Str("K1")], [NaN], [Str("")]]))
  {
    assert multiset(SentinelColumns)["key"] == 1;
    SentinelSecondSurvivors();
    MergeIsConcatEq(SentinelReread, SentinelIncrement, "key");
    var kept := KeptFrame(SentinelReread, SentinelIncrement, "key");
    var stacked := Stacked(kept, SentinelIncrement);
    assert stacked.objectCols == [true] by { assert stacked.objectCols[0]; }
    assert stacked.rows == [[Str("K1")], [NaN]] + [[Str("")]];
    assert kept.columns == SentinelIncrement.columns;
    assert Concat(kept, SentinelIncrement) == Success(stacked);
    assert stacked == Frame(SentinelColumns, [true], [[Str("K1")], [NaN], [Str("")]]);
  }

  /** Delivering the same increment twice is not harmless once the master table
      has gone through the CSV round trip: the empty key was read back as NaN, which
      `isin` does not match, so the master row survives and the increment row is
      appended a second time. */
  lemma EmptyKeyRerunGrows()
    ensures var once := Merge(SentinelMaster, SentinelIncrement, "key");
            && once.Success? && |once.value.rows| == 2
            && var again := Merge(EmptyAsMissing(once.value), SentinelIncrement, "key");
               && again.Success?
               && again.value.rows == [[Str("K1")], [NaN], [Str("")]]
  {
    SentinelFirstMerge();
    SentinelReadBack();
    SentinelSecondMerge();
  }

  /** A run reads the dictionary `udf_cols` only through this run's override of it. */
  lemma RunSeesOnlyOverride(config: Config, t1: map<string, string>, t2: map<string, string>, st: Store)
    requires StoreWellFormed(st)
    requires ConfigComplete(config) ==> Override(t1, config.keyCol.value) == Override(t2, config.keyCol.value)
    ensures RunPipeline(config, t1, st) == RunPipeline(config, t2, st)
  {
    if ConfigComplete(config) {
      var key := config.keyCol.value;
      assert Ingest(config, Override(t1, key), st) == Ingest(config, Override(t2, key), st);
    }
  }

  /** The dictionary `udf_cols` outlives a run, but whatever key an earlier run left
      in its slot, a run behaves as on the pristine `udf_cols`. */
  lemma EarlierRunsDoNotLeak(config: Config, udfCols: map<string, string>, st: Store)
    requires StoreWellFormed(st) && AgreesOffKey(udfCols)
    ensures RunPipeline(config, udfCols, st) == RunPipeline(config, UdfCols, st)
  {
    if ConfigComplete(config) {
      OverrideAnyRun(udfCols, config.keyCol.value);
    }
    RunSeesOnlyOverride(config, udfCols, UdfCols, st);
  }



  // ---------------------------------------------------------------- the run, step by step

  /** The Azure store the run talks to. */
  class BlobStore {
    var containers: Store

    constructor (st: Store)
      ensures containers == st
    {
      containers := st;
    }

    /** `list_csv_blobs`. */
    method ListCsv(container: string) returns (r: Result<seq<string>, PipelineError>)
      ensures r == ListCsvBlobs(containers, container)
    {
      if container in containers {
        r := Success(CsvBlobNames(containers[container].listing));
      } else {
        r := Failure(ContainerNotFound(container));
      }
    }

    /** `read_file`. */
    method Download(container: string, name: string) returns (r: Result<Frame, PipelineError>)
      requires StoreWellFormed(containers)
      ensures r == ReadFile(containers, container, name)
    {
      if container in containers && name in containers[container].files {
        r := Success(containers[container].files[name]);
      } else {
        r := Failure(BlobNotFound(container, name));
      }
    }

    /** `upload_df_to_blob`. */
    method Upload(container: string, name: string, f: Frame)
      requires container in containers
      modifies this
      ensures containers == Publish(old(containers), container, name, f)
    {
      containers := Publish(containers, container, name, f);
    }
  }

  /** Step 1 as the source runs it: `list_csv_blobs`, `find_latest_csv`, `read_file`. */
  method FetchSnapshot(store: BlobStore, src: string) returns (r: Result<Frame, PipelineError>)
    requires StoreWellFormed(store.containers)
    ensures r == FetchLatest(store.containers, src)
  {
    var listed := store.ListCsv(src);
    if listed.Failure? {
      return Failure(listed.error);
    }
    var found := FindLatestCsv(listed.value);
    if found.Failure? {
      return Failure(Discovery(found.error));
    }
    r := store.Download(src, found.value);
  }

  /** Step 2 as the source runs it: fold the headers of `w_df` in place, rename
      into `r_df`, normalise a copy into `curr_df`, and map its flags in place. */
  method PrepareIncrement(raw: Frame, udfTable: HeaderTable) returns (currDf: DataFrame)
    requires WellFormed(raw)
    ensures fresh(currDf)
    ensures currDf.Value() == Prepared(raw, udfTable.cols)
  {
    var wDf := new DataFrame(raw);
    wDf.FoldHeaderNames();
    var rDf := new DataFrame(RenameFrame(wDf.Value(), udfTable.cols));
    currDf := PreprocessedDf(rDf);
    currDf.ReplaceFlags();
  }

  /** `run_ingestion_pipeline` as the source runs it: one step after another on
      `DataFrame` objects, with the module-level `udf_cols` updated in place.
      Its outcome and the store it leaves are those of `RunPipeline`. */
  method RunIngestionPipeline(config: Config, udfTable: HeaderTable, store: BlobStore)
    returns (r: Result<Summary, PipelineError>)
    requires StoreWellFormed(store.containers)
    modifies udfTable, store
    ensures Outcome(r, store.containers) == RunPipeline(config, old(udfTable.cols), old(store.containers))
    ensures ConfigComplete(config) ==> udfTable.cols == Override(old(udfTable.cols), config.keyCol.value)
    ensures !ConfigComplete(config) ==> udfTable.cols == old(udfTable.cols)
  {
    if !ConfigComplete(config) {
      return Failure(ConfigurationError);
    }
    var dst := config.targetContainer.value;
    var key := config.keyCol.value;
    var blob := config.targetBlob.value;

    udfTable.SetKey(key);

    var fetched := FetchSnapshot(store, config.sourceContainer.value);
    if fetched.Failure? {
      return Failure(fetched.error);
    }
    var raw := fetched.value;
    var initialShape := Shape(raw);
    var currDf := PrepareIncrement(raw, udfTable);
    var curr := currDf.Value();

    var prevRead := store.Download(dst, blob);
    if prevRead.Failure? {
      return Failure(prevRead.error);
    }
    var prev := prevRead.value;
    var merged := Merge(prev, curr, key);
    if merged.Failure? {
      return Failure(MergeFailed(merged.error));
    }
    var final := merged.value;
    store.Upload(dst, blob, final);
    r := Success(Summary("SUCCESS", |final.rows|, initialShape, Shape(prev), key, blob));
  }
}
