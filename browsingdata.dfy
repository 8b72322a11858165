/**
 * The collection: one source per requested identifier, a decrypt pass that
 * survives failing sources, and export passes that skip empty sources and
 * abandon only the source whose step failed.
 */
module BrowsingData {
  import opened Wrappers
  import opened Items
  import opened Sources
  import Registry
  import opened Outputter

  /** How far Output got with one source; the log line it leaves follows from this. */
  datatype Stage =
    | Skipped
    | CreateFailed(filename: string, error: FileError)
    | WriteStepFailed(path: string, writeError: WriteError)
    | CloseFailed(path: string)
    | Exported(path: string)
  {
    /** The stages at which a file has been opened (created or truncated). */
    predicate HasFile()
    {
      WriteStepFailed? || CloseFailed? || Exported?
    }

    /** The stages reached only after CreateFile passed its filename guard (and so ran Stat on dir). */
    predicate PassedGuard()
    {
      !Skipped? && !(CreateFailed? && error == EmptyFilename)
    }
  }

  /**
   * What Output does with a source holding snap, named name, judged against
   * the disk as it was when Output started.
   */
  function ExportStage(o: OutPutter, disk: Disk, host: Host, codec: Codec, dir: string,
                       browserName: string, name: string, snap: Snapshot): Stage
  {
    if |snap.records| == 0 then Skipped
    else
      var filename := host.itemName(browserName, name, Ext(o));
      match Opened(disk, host, dir, filename)
      case Err(e) => CreateFailed(filename, e)
      case Ok(path) =>
        match Write(o, codec, host, snap, path)
        case Err(e) => WriteStepFailed(path, e)
        case Ok(_) => if host.closeOk(path) then Exported(path) else CloseFailed(path)
  }

  /**
   * The skip-if-empty gate and the all-steps-succeeded notice: a source is
   * skipped exactly when it holds no records; any file it gets is the one
   * named by browserName, its name and the extension alone; it is exported
   * exactly when create, write and close all succeed.
   */
  lemma ExportStageSpec(o: OutPutter, disk: Disk, host: Host, codec: Codec, dir: string,
                        browserName: string, name: string, snap: Snapshot)
    ensures var st := ExportStage(o, disk, host, codec, dir, browserName, name, snap);
      && (st == Skipped <==> |snap.records| == 0)
      && (st.HasFile() ==> st.path == host.join(dir, host.itemName(browserName, name, Ext(o))))
      && (st.Exported? <==>
            && |snap.records| > 0
            && Opened(disk, host, dir, host.itemName(browserName, name, Ext(o))).Ok?
            && Encode(codec, Branch(o), snap).Ok?
            && host.writeOk(st.path)
            && host.closeOk(st.path))
  {
  }

  class Data {
    var sources: map<Item, Source>

    /**
     * Every key is a recognised identifier holding a source of the type the
     * switch assigns to it, and no two keys share a source object.
     */
    ghost predicate Valid()
      reads this
    {
      && (forall k :: k in sources ==> Registry.Lookup(k) == Some(sources[k].variant))
      && (forall k, k' :: k in sources && k' in sources && k != k' ==> sources[k] != sources[k'])
    }

    /** The concrete type held under each identifier. */
    function Variants(): map<Item, Variant>
      reads this
    {
      map k | k in sources :: sources[k].variant
    }

    /** New(items): an empty map filled by addSources; every source is fresh and holds no records. */
    constructor New(items: seq<Item>)
      ensures Valid()
      ensures Variants() == Registry.Build(items)
      ensures forall k :: k in sources ==> fresh(sources[k]) && sources[k].records == []
    {
      sources := map[];
      new;
      assert Variants() == map[];
      AddSources(items);
    }

    /**
     * addSources(items): for each identifier in turn, a recognised one gets a
     * fresh source of its type (replacing any it had), an unrecognised one
     * is skipped; identifiers not in items keep their sources.
     */
    method AddSources(items: seq<Item>)
      requires Valid()
      modifies this
      ensures Valid()
      ensures Variants() == Registry.AddAll(old(Variants()), items)
      ensures forall k :: k in sources && k !in items ==> k in old(sources) && sources[k] == old(sources)[k]
      ensures forall k :: k in sources && k in items ==> fresh(sources[k]) && sources[k].records == []
    {
      var i := 0;
      while i < |items|
        invariant 0 <= i <= |items|
        invariant Valid()
        invariant Variants() == Registry.AddAll(old(Variants()), items[..i])
        invariant forall k :: k in sources && k !in items[..i] ==> k in old(sources) && sources[k] == old(sources)[k]
        invariant forall k :: k in sources && k in items[..i] ==> fresh(sources[k]) && sources[k].records == []
      {
        var item := items[i];
        assert items[..i + 1][..i] == items[..i];
        match Registry.Lookup(item) {
          case Some(v) =>
            var source := new Source(v);
            sources := sources[item := source];
          case None =>
        }
        i := i + 1;
      }
      assert items[..i] == items;
    }

    /**
     * Recovery(masterKey): Parse runs exactly once on every source, in some
     * order; a failing Parse is logged and the pass goes on, so each source
     * ends in the state its own Parse leaves, whatever the others did. The
     * call itself always returns nil.
     */
    method Recovery(masterKey: seq<bv8>, impl: SourceImpl) returns (parsed: seq<Item>, failed: set<Item>, err: Option<string>)
      requires Valid()
      modifies sources.Values
      ensures Valid() && sources == old(sources)
      ensures err == None
      ensures forall k :: k in parsed <==> k in sources
      ensures forall i, j :: 0 <= i < j < |parsed| ==> parsed[i] != parsed[j]
      ensures forall k :: k in sources ==>
        sources[k].records == impl.parse(sources[k].variant, old(sources[k].records), masterKey).records
      ensures failed == set k | k in sources && impl.parse(sources[k].variant, old(sources[k].records), masterKey).err.Some?
    {
      parsed, failed := [], {};
      var todo := sources.Keys;
      while todo != {}
        invariant todo <= sources.Keys
        invariant forall k :: k in parsed <==> k in sources && k !in todo
        invariant forall i, j :: 0 <= i < j < |parsed| ==> parsed[i] != parsed[j]
        invariant forall k :: k in sources && k !in todo ==>
          sources[k].records == impl.parse(sources[k].variant, old(sources[k].records), masterKey).records
        invariant forall k :: k in todo ==> sources[k].records == old(sources[k].records)
        invariant failed == set k | k in sources && k !in todo && impl.parse(sources[k].variant, old(sources[k].records), masterKey).err.Some?
        decreases todo
      {
        var k :| k in todo;
        var source := sources[k];
        var e := source.Parse(masterKey, impl);
        if e.Some? {
          failed := failed + {k};
        }
        parsed := parsed + [k];
        todo := todo - {k};
      }
      err := None;
    }

    /**
     * Output(dir, browserName, flag): each source holding records is written
     * to its own file, named from browserName, its name and the extension of
     * the chosen format; an empty source gets no file, and a failing create,
     * write or close abandons only the source it happened to. Each source's
     * stage is the one ExportStage gives against the disk Output started
     * from, so it does not depend on the order the map is visited in. The
     * directory dir and its parents are created exactly when dir was
     * missing, MkdirAll succeeds on it and some source got past
     * CreateFile's filename guard.
     */
    method Output(dir: string, browserName: string, flag: string, impl: SourceImpl, codec: Codec, host: Host, disk: Disk)
      returns (report: map<Item, Stage>, disk': Disk)
      ensures report.Keys == sources.Keys
      ensures forall k :: k in sources ==>
        report[k] == ExportStage(NewOutPutter(flag), disk, host, codec, dir, browserName, sources[k].Name(impl), sources[k].Snap())
      ensures disk'.files == disk.files + FilesOf(report)
      ensures disk'.dirs == DirsAfter(disk, host, dir, Guarded(report) != {})
    {
      var output := NewOutPutter(flag);
      report, disk' := map[], disk;
      var todo := sources.Keys;
      while todo != {}
        invariant todo <= sources.Keys
        invariant report.Keys == sources.Keys - todo
        invariant forall k :: k in report ==>
          report[k] == ExportStage(output, disk, host, codec, dir, browserName, sources[k].Name(impl), sources[k].Snap())
        invariant disk'.files == disk.files + FilesOf(report)
        invariant Consistent(disk, disk', host, dir, Guarded(report) != {})
        decreases todo
      {
        var k :| k in todo;
        todo := todo - {k};
        var source := sources[k];
        var stage;
        stage, disk' := ExportSource(output, disk, disk', Guarded(report) != {}, host, codec, dir, browserName,
                                     source.Name(impl), source.Snap());
        report := Note(report, k, stage);
      }
    }

    /**
     * GetJson(): the JSON text of every source that holds records, keyed by
     * its name; a source whose encoding fails still gets its key, holding "".
     * The error result is always nil.
     */
    method GetJson(impl: SourceImpl, codec: Codec) returns (jsonMap: map<string, string>, err: Option<string>)
      ensures err == None
      ensures jsonMap.Keys == NonEmptyNames(impl)
      ensures EntriesFrom(jsonMap, impl, codec, Json)
    {
      jsonMap := Collect(impl, codec, Json);
      err := None;
    }

    /**
     * GetCSV(): the CSV text of every source that holds records, keyed by its
     * name; a source whose encoding fails still gets its key, holding "".
     * The error result is always nil.
     */
    method GetCSV(impl: SourceImpl, codec: Codec) returns (csvMap: map<string, string>, err: Option<string>)
      ensures err == None
      ensures csvMap.Keys == NonEmptyNames(impl)
      ensures EntriesFrom(csvMap, impl, codec, Csv)
    {
      csvMap := Collect(impl, codec, Csv);
      err := None;
    }

    /** The names of the sources that hold records. */
    ghost function NonEmptyNames(impl: SourceImpl): set<string>
      reads this, sources.Values
    {
      set k | k in sources && |sources[k].records| > 0 :: sources[k].Name(impl)
    }

    /** Every entry of m is the text (or "") of some source holding records under that name. */
    ghost predicate EntriesFrom(m: map<string, string>, impl: SourceImpl, codec: Codec, f: Format)
      reads this, sources.Values
    {
      forall n :: n in m ==>
        exists k :: k in sources && |sources[k].records| > 0 && sources[k].Name(impl) == n
                    && m[n] == Entry(codec, f, sources[k].Snap())
    }

    /**
     * When no other source holding records shares k's name, the entry under
     * that name is k's own text, and "" when k's encoding failed: a failing
     * source keeps its key rather than being left out.
     */
    lemma EntryOfUniqueName(m: map<string, string>, impl: SourceImpl, codec: Codec, f: Format, k: Item)
      requires m.Keys == NonEmptyNames(impl) && EntriesFrom(m, impl, codec, f)
      requires k in sources && |sources[k].records| > 0
      requires forall j :: j in sources && |sources[j].records| > 0 && sources[j].Name(impl) == sources[k].Name(impl) ==> j == k
      ensures sources[k].Name(impl) in m
      ensures m[sources[k].Name(impl)] == Entry(codec, f, sources[k].Snap())
      ensures Encode(codec, f, sources[k].Snap()).Err? ==> m[sources[k].Name(impl)] == ""
    {
      var n := sources[k].Name(impl);
      assert n in NonEmptyNames(impl);
      var j :| j in sources && |sources[j].records| > 0 && sources[j].Name(impl) == n
               && m[n] == Entry(codec, f, sources[j].Snap());
    }

    /** The loop GetJson and GetCSV share: skip empty sources, store every other one's text under its name. */
    method Collect(impl: SourceImpl, codec: Codec, f: Format) returns (m: map<string, string>)
      ensures m.Keys == NonEmptyNames(impl)
      ensures EntriesFrom(m, impl, codec, f)
    {
      m := map[];
      var todo := sources.Keys;
      while todo != {}
        invariant todo <= sources.Keys
        invariant m.Keys == set k | k in sources && k !in todo && |sources[k].records| > 0 :: sources[k].Name(impl)
        invariant forall n :: n in m ==>
          exists k :: k in sources && k !in todo && |sources[k].records| > 0 && sources[k].Name(impl) == n
                      && m[n] == Entry(codec, f, sources[k].Snap())
        decreases todo
      {
        var k :| k in todo;
        todo := todo - {k};
        var source := sources[k];
        if source.Len() == 0 {
          continue;
        }
        // GetJson/GetCSV only print the encoder's error; it never reaches the result.
        var text, encodeErr;
        if f == Json {
          text, encodeErr := Outputter.GetJson(codec, source.Snap());
        } else {
          text, encodeErr := Outputter.GetCSV(codec, source.Snap());
        }
        m := m[source.Name(impl) := text];
      }
    }
  }

  /**
   * The directories after Output: dir and its parents are added exactly when
   * Stat reported dir missing, MkdirAll succeeds on it and some source
   * reached that Stat; nothing else is added.
   */
  function DirsAfter(disk: Disk, host: Host, dir: string, reached: bool): set<string>
  {
    disk.dirs + (if reached && dir != "" && Missing(disk, host, dir) && host.mkdirOk(dir) then MadeByMkdirAll(host, dir) else {})
  }

  /**
   * How the disk during Output relates to the one it started from: the
   * directories are DirsAfter, files are only added, and no file is ever
   * opened at dir itself while dir was missing.
   */
  predicate Consistent(disk: Disk, current: Disk, host: Host, dir: string, reached: bool)
  {
    && current.dirs == DirsAfter(disk, host, dir, reached)
    && disk.files <= current.files
    && (dir != "" && Missing(disk, host, dir) ==> dir !in current.files)
  }

  /**
   * One iteration of Output's loop: skip an empty source, otherwise create,
   * write and close its file, stopping at the first failing step. Run on a
   * disk that earlier iterations may have given dir, it reaches the stage
   * ExportStage gives against the disk Output started from.
   */
  method ExportSource(output: OutPutter, disk: Disk, current: Disk, ghost reached: bool, host: Host, codec: Codec,
                      dir: string, browserName: string, name: string, snap: Snapshot)
    returns (stage: Stage, next: Disk)
    requires Consistent(disk, current, host, dir, reached)
    ensures stage == ExportStage(output, disk, host, codec, dir, browserName, name, snap)
    ensures next.files == current.files + (if stage.HasFile() then {stage.path} else {})
    ensures next.dirs == DirsAfter(disk, host, dir, reached || stage.PassedGuard())
    ensures Consistent(disk, next, host, dir, reached || stage.PassedGuard())
  {
    next := current;
    if |snap.records| == 0 {
      return Skipped, next;
    }
    var filename := host.itemName(browserName, name, Ext(output));
    if current.dirs != disk.dirs {
      OpenedAfterMkdir(disk, host, dir, filename, current);
    } else {
      assert dir != "" ==> Missing(current, host, dir) == Missing(disk, host, dir);
    }
    var file, steps;
    file, next, steps := CreateFile(current, host, dir, filename);
    if file.Err? {
      return CreateFailed(filename, file.error), next;
    }
    var path := file.value;
    var written := Write(output, codec, host, snap, path);
    if written.Err? {
      return WriteStepFailed(path, written.error), next;
    }
    if !host.closeOk(path) {
      return CloseFailed(path), next;
    }
    stage := Exported(path);
  }

  /** The paths of the files Output opened, by the stages that record one. */
  function FilesOf(report: map<Item, Stage>): set<string>
  {
    set k | k in report && report[k].HasFile() :: report[k].path
  }

  /** The sources whose stage shows they got past CreateFile's filename guard. */
  function Guarded(report: map<Item, Stage>): set<Item>
  {
    set k | k in report && report[k].PassedGuard()
  }

  /** Record a source's stage in the report, keeping FilesOf and Guarded in step. */
  function Note(report: map<Item, Stage>, k: Item, st: Stage): (r: map<Item, Stage>)
    requires k !in report
    ensures r.Keys == report.Keys + {k} && r[k] == st
    ensures forall j :: j in report ==> r[j] == report[j]
    ensures FilesOf(r) == FilesOf(report) + (if st.HasFile() then {st.path} else {})
    ensures Guarded(r) == Guarded(report) + (if st.PassedGuard() then {k} else {})
  {
    report[k := st]
  }
}
