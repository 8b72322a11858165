# HackBrowserData `browingdata` core in Dafny

This models the orchestration layer of HackBrowserData's `browingdata` package. It has three parts.

- **The source registry.** `New` and `addSources` turn a list of category identifiers (`item.Item`) into a map with one fresh source object per recognised identifier. The switch knows eighteen identifiers: nine for Chromium (passwords, cookies, bookmarks, history, downloads, credit cards, local storage, session storage, extensions), two for Yandex (passwords, credit cards) and seven for Firefox (the Chromium nine without credit cards and session storage). Any other identifier is dropped silently.
- **The batch passes over the collection.**
  - `Recovery` calls `Parse` on every source and keeps going past failures.
  - `Output` writes one file per source that holds records. A failing create, write or close abandons only that source.
  - `GetJson` and `GetCSV` build a name-to-text map over the sources that hold records.
- **The output writer (`outPutter`).** A flag selects JSON or CSV. The writer reports the matching extension, sends `Write` to the matching encoder, creates the target file behind a filename guard and a directory-creation rule, and shapes encoder errors for the in-memory maps.

Modules:

- `Items`: the identifiers, plus the (browser family, data category) pair each one names.
- `Sources`: the eighteen concrete source types, and the `Source` class. Its `Parse` replaces the records in place; `Len` is the number of records.
- `Registry`: the switch (`Lookup`) and the map it fills (`AddAll`, `Build`).
- `Outputter`: the writer.
- `BrowsingData`: the `Data` class and the per-source export stage.

External collaborators are inputs to the model. Their behaviour is not modelled:

- `SourceImpl` stands for each concrete type's `Name()` and its effect on `Parse`.
- `Codec` stands for `encoding/json` and `gocsv`.
- `Host` stands for `os.Stat`, `os.MkdirAll` (with the parent directories it creates), `os.OpenFile`, the file write, `f.Close`, `filepath.Join`/`Clean` and `fileutil.ItemName`.
- `Disk` is the set of directories and files that exist.

The log that the Go code writes to is modelled as results:

- `Recovery` returns the order in which it parsed the sources and the set whose `Parse` failed.
- `Output` returns a per-source `Stage`. Only `Exported` corresponds to the "success" notice.

Go's map iteration order is not modelled. Every result is stated in a form that does not depend on it. `Output`'s per-source stage is judged against the disk as it was when `Output` started. A directory created by an earlier source changes the filesystem calls made, but not the outcome (`Outputter.OpenedAfterMkdir`).

Three behaviours of the code a reader might not expect:

- `GetJson`/`GetCSV` do not omit a source whose encoding fails. The tuple assignment stores the `""` that `getJson`/`getCSV` return, so the key is present.
- On a failed `Write`, `Output` moves on without closing the file it opened.
- File names come from `fileutil.ItemName`, which is not part of this model. The model does not assume a `label_name.ext` shape.

## Model

| member | source | states |
|---|---|---|
| `Registry.Lookup` | browingdata/browsingdata.go:79-116 | the switch allocates a type exactly for the eighteen recognised identifiers, and that type has the identifier's browser family and data category |
| `Registry.LookupMatchesKind` | browingdata/browsingdata.go:80-115 | both directions: `Lookup(i) == Some(v)` exactly when `v`'s family and package are those `i` names (e.g. `FirefoxHistory ↦ history.FirefoxHistory`, `YandexCreditCard ↦ creditcard.YandexCreditCard`) |
| `Registry.LookupInjective` | browingdata/browsingdata.go:80-115 | two identifiers that get the same concrete type are the same identifier |
| `Registry.AddAllAt` | browingdata/browsingdata.go:77-118 | after addSources on a map `m`, a key is present exactly when it was in `m` or is recognised and occurs in `items`; a requested recognised key holds its switch type; any other key keeps its old value |
| `Registry.BuildSpec` | browingdata/browsingdata.go:33-39 | the keys of `New(items)` are exactly the recognised identifiers in `items` (unrecognised ones leave no entry and raise no error), and each key holds the type the switch assigns to it |
| `Registry.BuildDependsOnlyOnRecognised` | browingdata/browsingdata.go:78-81 | the registry depends only on which recognised identifiers are requested: not on order, repetition or unrecognised identifiers |
| `Registry.DuplicateCollapses` | browingdata/browsingdata.go:78-81 | requesting an identifier again leaves the map unchanged, so each identifier has exactly one entry |
| `Registry.BuildSize` | browingdata/browsingdata.go:21-23 | a collection never holds more than eighteen sources |
| `Sources.Source.Parse` | browingdata/browsingdata.go:26 | Parse replaces the source's records with what its concrete type produces from its own records and the key, and returns that type's error |
| `BrowsingData.Data.New` | browingdata/browsingdata.go:33-39 | `New(items)` holds exactly the registry map `Build(items)`; every source is fresh, holds no records, and no two keys share a source |
| `BrowsingData.Data.AddSources` | browingdata/browsingdata.go:77-118 | the loop leaves the variants `AddAll(old variants, items)`; requested keys get fresh empty sources (a later duplicate overwrites with an equal fresh one); other keys keep their source objects |
| `BrowsingData.Data.Recovery` | browingdata/browsingdata.go:41-48 | Parse runs exactly once on every source (the call order lists every key once); each source ends in the state its own Parse gives, whatever the others did; the failures are the sources whose Parse erred; the result is always nil |
| `BrowsingData.Data.Output` | browingdata/browsingdata.go:50-75 | every source gets the stage `ExportStage` gives it, independent of visiting order; the files created are exactly those of the stages that opened one; `dir` and its parents (`MadeByMkdirAll`) are added to the directories exactly when nothing existed at `dir`, MkdirAll succeeds on it and some source got past CreateFile's filename guard, and no other directory is added |
| `BrowsingData.ExportSource` | browingdata/browsingdata.go:53-74 | one loop iteration: skip if empty, else create, write, close, stopping at the first failure; on a disk that earlier iterations may have given `dir`, it reaches the same stage as on the starting disk; the new directories are given exactly, with `dir` and its parents added once a source reaches Stat while `dir` is missing and MkdirAll succeeds |
| `BrowsingData.ExportStageSpec` | browingdata/browsingdata.go:54-73 | a source is skipped exactly when `Len() == 0`; any file it gets is `join(dir, ItemName(browserName, Name(), Ext()))`; it is exported (success notice) exactly when create, write and close all succeed |
| `BrowsingData.Data.GetJson` | browingdata/browsingdata.go:120-135 | the keys are exactly the names of sources holding records; each value is the JSON entry of such a source with that name; the error is always nil |
| `BrowsingData.Data.GetCSV` | browingdata/browsingdata.go:137-152 | the keys are exactly the names of sources holding records; each value is the CSV entry of such a source with that name; the error is always nil |
| `BrowsingData.Data.Collect` | browingdata/browsingdata.go:124-133 | the shared loop skips empty sources and stores each other source's text under its name |
| `BrowsingData.Data.EntryOfUniqueName` | browingdata/browsingdata.go:128 | a source whose name no other non-empty source shares has its own text under that name, and `""` (not a missing key) when its encoding failed |
| `Outputter.NewOutPutter` | browingdata/outputter.go:23-31 | `json` is set exactly for the flag `"json"`; `csv` is set for every other flag, including `""` and `"csv"` |
| `Outputter.Ext` | browingdata/outputter.go:74-79 | the extension is `"json"` exactly when the json flag is set, and `"csv"` otherwise |
| `Outputter.ExtOfNewOutPutter` | browingdata/outputter.go:23-31 | a writer built from a flag has exactly one format; its extension is `"json"` iff the flag is `"json"`; the flags `"json"` and `"csv"` come back unchanged |
| `Outputter.NewOutPutterOfExt` | browingdata/outputter.go:74-79 | building a writer from a well-formed writer's extension gives that writer back |
| `Outputter.BranchAgreesWithExt` | browingdata/outputter.go:33-48 | the encoder Write uses and the file extension always name the same format |
| `Outputter.Write` | browingdata/outputter.go:33-48 | Write succeeds exactly when the selected encoder succeeds and the file takes the bytes; it then writes that encoder's text; an encoder failure is returned as that failure |
| `Outputter.CreateFile` | browingdata/outputter.go:50-72 | an empty filename is an error with no filesystem call; Stat runs only for a non-empty dir, and MkdirAll only when Stat reports that nothing (neither directory nor file) exists at dir; with `dir == ""` it opens `join("", filename)`; a mkdir or open failure returns no file; the disk gains `dir` and its parents only after a successful MkdirAll and the file only after a successful open |
| `Outputter.OpenedAfterMkdir` | browingdata/outputter.go:55-62 | once a successful MkdirAll has added `dir` and its parents, later CreateFile calls open the same path or return the same error as before |
| `Outputter.GetJson` | browingdata/outputter.go:81-91 | `(text, nil)` on encoder success; `("", err)` on failure, with the encoder's message behind `"Data encode to json error: "` |
| `Outputter.GetCSV` | browingdata/outputter.go:93-105 | `(text, nil)` on encoder success; `("", err)` on failure, with the encoder's error unchanged |

## Left out

- JSON and CSV encoding (indentation, HTML escaping, the UTF-8 byte-order mark, header rows, `gocsv.SetCSVWriter`'s global writer hook). These are library calls and are modelled as the `Codec` oracle.
- The filesystem is the `Disk` value and the `Host` oracle. Not modelled:
  - permission bits 0o750 and 0o600;
  - the open flags;
  - file contents;
  - how `filepath.Join`/`Clean` and `fileutil.ItemName` build names, and which parents `os.MkdirAll` creates (treated as uninterpreted functions).
- The concrete `Parse` and `Name` of the eighteen source types (decryption and store parsing). These are modelled as `SourceImpl`; `Len()` is taken to be the number of records. `Name()` is taken to be a constant per type, and a record's schema is left opaque.
- Logging (`log.Errorf`, `log.Noticef`, `fmt.Println`). It is represented only by the report values that `Recovery` and `Output` return. Message texts are not modelled.
- Every `Host` outcome (Stat, MkdirAll, open, write, close) is a fixed function of the path alone. Transient failures, a disk filling up, and dependence on what earlier iterations wrote are not modelled. The only disk state consulted is which directories and files exist; opening an existing directory for writing always fails. `Output`'s claim that each stage does not depend on the visiting order rests on this.
- `SourceImpl.parse` depends only on the source's own type, its own records and the key. The concrete Parse functions read browser files from disk, and any interaction between them through the filesystem is not modelled. `Recovery`'s claim that each source ends in the state its own Parse gives, whatever the others did, rests on this.
- The file handle that `Output` leaves open after a failed write: no close is modelled for it, and nothing is claimed about handles being closed.
- `BrowsingData.Data.GetJson`: when two sources holding records share a name, which one's text the map keeps depends on Go's map order. The contract says only that it is one of them.
- `BrowsingData.Data.GetCSV`: same as `GetJson` for sources holding records that share a name.
- Item codes outside the eighteen recognised identifiers are not enumerated. They are represented by `Items.Other`.
