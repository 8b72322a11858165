/**
 * The output writer: a format chosen once from a flag (JSON, or CSV for
 * every other flag), the extension that goes with it, the Write dispatch to
 * the matching encoder, the guarded file creation, and the shaping of
 * encoder errors for the in-memory maps.
 *
 * The encoders are the Codec oracle and the filesystem is a Disk value plus
 * the Host oracle, so no real file is touched.
 */
module Outputter {
  import opened Wrappers
  import opened Sources

  /** The two flags of outPutter. */
  datatype OutPutter = OutPutter(json: bool, csv: bool)

  /** newOutPutter(flag): json for exactly the flag "json", csv for every other flag. */
  function NewOutPutter(flag: string): (o: OutPutter)
    ensures o.json <==> flag == "json"
    ensures o.csv <==> flag != "json"
  {
    if flag == "json" then OutPutter(true, false) else OutPutter(false, true)
  }

  /** Exactly one of the two flags is set, as newOutPutter always leaves it. */
  predicate WellFormed(o: OutPutter)
  {
    o.json != o.csv
  }

  /** The file extension: "json" when the json flag is set, "csv" otherwise. */
  function Ext(o: OutPutter): (e: string)
    ensures e == "json" || e == "csv"
    ensures e == "json" <==> o.json
  {
    if o.json then "json" else "csv"
  }

  /**
   * The writer built from a flag always has exactly one format, and its
   * extension names that format: the flags "json" and "csv" come back
   * unchanged, every other flag (the empty one included) yields "csv".
   */
  lemma ExtOfNewOutPutter(flag: string)
    ensures WellFormed(NewOutPutter(flag))
    ensures Ext(NewOutPutter(flag)) == (if flag == "json" then "json" else "csv")
    ensures flag == "json" || flag == "csv" ==> Ext(NewOutPutter(flag)) == flag
  {
  }

  /** Building a writer from the extension of a well-formed writer gives that writer back. */
  lemma NewOutPutterOfExt(o: OutPutter)
    requires WellFormed(o)
    ensures NewOutPutter(Ext(o)) == o
  {
  }

  /** The serialisations this writer can produce. */
  datatype Format = Json | Csv

  /** encoding/json (two-space indent, no HTML escaping) and gocsv (BOM, comma) applied to a source. */
  datatype Codec = Codec(
    json: Snapshot -> Result<string, string>,
    csv: Snapshot -> Result<string, string>)

  function Encode(codec: Codec, f: Format, snap: Snapshot): Result<string, string>
  {
    match f
    case Json => codec.json(snap)
    case Csv => codec.csv(snap)
  }

  /** The encoder Write dispatches to: JSON exactly when the json flag is set. */
  function Branch(o: OutPutter): (f: Format)
    ensures f == Json <==> o.json
  {
    if o.json then Json else Csv
  }

  /** The branch Write takes and the extension of the file it writes into always agree. */
  lemma BranchAgreesWithExt(o: OutPutter)
    ensures Branch(o) == Json <==> Ext(o) == "json"
    ensures Branch(o) == Csv <==> Ext(o) == "csv"
  {
  }

  /** The filesystem as far as CreateFile sees it: the directories and files that exist. */
  datatype Disk = Disk(dirs: set<string>, files: set<string>)

  /**
   * The parts of the host that are not modelled: whether os.Stat fails with
   * an error other than "does not exist", whether os.MkdirAll, os.OpenFile,
   * writing and f.Close succeed on a path, and the pure name builders
   * filepath.Clean(filepath.Join(dir, name)) and fileutil.ItemName, and
   * the parent directories of a path, which os.MkdirAll creates along with it.
   */
  datatype Host = Host(
    statFails: string -> bool,
    mkdirOk: string -> bool,
    openOk: string -> bool,
    writeOk: string -> bool,
    closeOk: string -> bool,
    join: (string, string) -> string,
    itemName: (string, string, string) -> string,
    ancestors: string -> set<string>)

  /** What a successful os.MkdirAll(dir) leaves existing: dir and every parent of it. */
  function MadeByMkdirAll(host: Host, dir: string): set<string>
  {
    {dir} + host.ancestors(dir)
  }

  datatype FileError = EmptyFilename | MkdirFailed(dir: string) | OpenFailed(path: string)

  /** One filesystem call CreateFile makes. */
  datatype FsStep = Stat(dir: string) | MkdirAll(dir: string) | OpenFile(path: string)

  /**
   * os.IsNotExist of os.Stat(dir): nothing, neither a directory nor a file,
   * exists at dir, and Stat failed for no other reason.
   */
  predicate Missing(disk: Disk, host: Host, dir: string)
  {
    dir !in disk.dirs && dir !in disk.files && !host.statFails(dir)
  }

  /**
   * The outcome of CreateFile(dir, filename): the path of the opened file or
   * the error returned. Opening a path that is a directory for writing fails
   * (EISDIR) whatever the host otherwise allows.
   */
  function Opened(disk: Disk, host: Host, dir: string, filename: string): Result<string, FileError>
  {
    if filename == "" then Err(EmptyFilename)
    else
      var mkdir := dir != "" && Missing(disk, host, dir);
      if mkdir && !host.mkdirOk(dir) then Err(MkdirFailed(dir))
      else
        var dirs := if mkdir then disk.dirs + MadeByMkdirAll(host, dir) else disk.dirs;
        var path := host.join(dir, filename);
        if path !in dirs && host.openOk(path) then Ok(path) else Err(OpenFailed(path))
  }

  /**
   * CreateFile's outcome does not change once an earlier call has created
   * the directory: with dir added by a successful MkdirAll, the same path is
   * opened or the same error returned.
   */
  lemma OpenedAfterMkdir(disk: Disk, host: Host, dir: string, filename: string, later: Disk)
    requires dir != "" && Missing(disk, host, dir) && host.mkdirOk(dir)
    requires later.dirs == disk.dirs + MadeByMkdirAll(host, dir)
    ensures Opened(later, host, dir, filename) == Opened(disk, host, dir, filename)
  {
  }

  /**
   * CreateFile(dir, filename): refuses an empty filename before any
   * filesystem call; stats a non-empty dir and runs MkdirAll only when Stat
   * reports it missing (creating dir and its parents); then opens filepath.Join(dir, filename), relative to
   * the current directory when dir is empty. A failing MkdirAll or OpenFile
   * is returned, and no file with it; so is opening a path that is a
   * directory.
   */
  method CreateFile(disk: Disk, host: Host, dir: string, filename: string)
    returns (file: Result<string, FileError>, disk': Disk, steps: seq<FsStep>)
    ensures file == Opened(disk, host, dir, filename)
    ensures filename == "" ==> file == Err(EmptyFilename) && steps == [] && disk' == disk
    ensures Stat(dir) in steps <==> filename != "" && dir != ""
    ensures MkdirAll(dir) in steps <==> filename != "" && dir != "" && Missing(disk, host, dir)
    ensures OpenFile(host.join(dir, filename)) in steps <==> file.Ok? || file.error.OpenFailed?
    ensures forall s :: s in steps ==> s in {Stat(dir), MkdirAll(dir), OpenFile(host.join(dir, filename))}
    ensures file.Ok? ==> file.value == host.join(dir, filename) && file.value !in disk'.dirs
    ensures disk'.dirs == disk.dirs + (if MkdirAll(dir) in steps && host.mkdirOk(dir) then MadeByMkdirAll(host, dir) else {})
    ensures disk'.files == disk.files + (if file.Ok? then {file.value} else {})
  {
    steps := [];
    disk' := disk;
    if filename == "" {
      return Err(EmptyFilename), disk', steps;
    }
    if dir != "" {
      steps := steps + [Stat(dir)];
      if Missing(disk, host, dir) {
        steps := steps + [MkdirAll(dir)];
        if !host.mkdirOk(dir) {
          return Err(MkdirFailed(dir)), disk', steps;
        }
        disk' := disk'.(dirs := disk'.dirs + MadeByMkdirAll(host, dir));
      }
    }
    var path := host.join(dir, filename);
    steps := steps + [OpenFile(path)];
    if path in disk'.dirs || !host.openOk(path) {
      return Err(OpenFailed(path)), disk', steps;
    }
    disk' := disk'.(files := disk'.files + {path});
    file := Ok(path);
  }

  datatype WriteError = EncodeFailed(message: string) | WriteFailed(path: string)

  /**
   * Write(source, file): the JSON encoder when the json flag is set, gocsv
   * otherwise; it fails when that encoder fails or the file refuses the
   * bytes, and otherwise returns what it wrote.
   */
  function Write(o: OutPutter, codec: Codec, host: Host, snap: Snapshot, path: string): (r: Result<string, WriteError>)
    ensures r.Ok? <==> Encode(codec, Branch(o), snap).Ok? && host.writeOk(path)
    ensures r.Ok? ==> r.value == Encode(codec, Branch(o), snap).value
    ensures r.Err? && Encode(codec, Branch(o), snap).Err? ==> r.error == EncodeFailed(Encode(codec, Branch(o), snap).error)
  {
    var encoded := if o.json then codec.json(snap) else codec.csv(snap);
    match encoded
    case Err(e) => Err(EncodeFailed(e))
    case Ok(text) => if host.writeOk(path) then Ok(text) else Err(WriteFailed(path))
  }

  const JsonErrorPrefix := "Data encode to json error: "

  /** The string a source contributes to an in-memory map: its encoding, or "" when encoding fails. */
  function Entry(codec: Codec, f: Format, snap: Snapshot): string
  {
    match Encode(codec, f, snap)
    case Ok(text) => text
    case Err(_) => ""
  }

  /** getJson(source): the JSON text and no error, or "" and the encoder's message behind a fixed prefix. */
  method GetJson(codec: Codec, snap: Snapshot) returns (text: string, err: Option<string>)
    ensures codec.json(snap).Ok? ==> text == codec.json(snap).value && err == None
    ensures codec.json(snap).Err? ==> text == "" && err == Some(JsonErrorPrefix + codec.json(snap).error)
    ensures text == Entry(codec, Json, snap)
  {
    var encoded := codec.json(snap);
    if encoded.Err? {
      return "", Some(JsonErrorPrefix + encoded.error);
    }
    text, err := encoded.value, None;
  }

  /** getCSV(source): the CSV text and no error, or "" and the encoder's error unchanged. */
  method GetCSV(codec: Codec, snap: Snapshot) returns (text: string, err: Option<string>)
    ensures codec.csv(snap).Ok? ==> text == codec.csv(snap).value && err == None
    ensures codec.csv(snap).Err? ==> text == "" && err == Some(codec.csv(snap).error)
    ensures text == Entry(codec, Csv, snap)
  {
    var encoded := codec.csv(snap);
    if encoded.Err? {
      return "", Some(encoded.error);
    }
    text, err := encoded.value, None;
  }
}
