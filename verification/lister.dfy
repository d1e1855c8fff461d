/**
 * The per-path loop of the program: look each path up, print one line for it,
 * and stop at the first path whose lookup or line fails.
 */
module Lister {
  import Permissions
  import FileKinds

  /** An unsigned 64-bit quantity. */
  type U64 = x: int | 0 <= x < 0x1_0000_0000_0000_0000

  /** A modification time, as the platform reports it. */
  type Timestamp = int

  /** The error a failed step ends the program with. */
  datatype IoError =
    | OsError(code: int)   // reported by the platform for a lookup
    | FormatterError       // a line could not be formatted

  datatype Result<T> = Ok(value: T) | Err(error: IoError)

  datatype Option<T> = None | Some(value: T)

  /**
   * The permission part of the metadata: the mode word. On Unix the read-only
   * flag is not stored separately; it holds when no write bit is set.
   */
  datatype Perms = Perms(mode: Permissions.Mode) {
    predicate Readonly() {
      mode & Permissions.WriteBits == 0
    }
  }

  /** What looking a path up reports; the modification time may be unavailable on its own. */
  datatype Metadata = Metadata(
    size: U64,
    fileType: FileKinds.FileType,
    permissions: Perms,
    modified: Result<Timestamp>)

  /** One listed entry. */
  datatype File = File(
    name: string,
    size: U64,
    fileType: FileKinds.FileType,
    permissions: Perms,
    lastModified: Timestamp)

  /**
   * The fields of a printed line in their printed order: type label, mode
   * word, symbolic permissions, size, time stamp, read-only marker and name.
   */
  datatype Line = Line(
    kind: string,
    mode: Permissions.Mode,
    symbolic: string,
    size: U64,
    stamp: string,
    readonly: string,
    name: string)

  /**
   * Looking `path` up: a failed lookup fails with its error, then an
   * unavailable modification time fails with its error; otherwise the entry
   * is named by the path exactly as given and carries the metadata's fields.
   */
  function Lookup(path: string, metadata: string -> Result<Metadata>): (r: Result<File>)
    ensures metadata(path).Err? ==> r == Err(metadata(path).error)
    ensures metadata(path).Ok? && metadata(path).value.modified.Err? ==> r == Err(metadata(path).value.modified.error)
    ensures r.Ok? <==> metadata(path).Ok? && metadata(path).value.modified.Ok?
    ensures r.Ok? ==>
      var m := metadata(path).value;
      r.value.name == path && r.value.size == m.size && r.value.fileType == m.fileType &&
      r.value.permissions == m.permissions && r.value.lastModified == m.modified.value
  {
    match metadata(path)
    case Err(e) => Err(e)
    case Ok(m) =>
      match m.modified
      case Err(e) => Err(e)
      case Ok(t) => Ok(File(path, m.size, m.fileType, m.permissions, t))
  }

  /**
   * The line printed for `f`. `stamp` renders the modification time in local
   * time and yields `None` when the local offset or the format description is
   * unavailable, which fails the whole line; a time that cannot be formatted
   * is rendered by `stamp` itself as a placeholder text.
   */
  function Described(f: File, stamp: Timestamp -> Option<string>): Result<Line> {
    match stamp(f.lastModified)
    case None => Err(FormatterError)
    case Some(text) =>
      Ok(Line(
        FileKinds.Label(FileKinds.Classify(f.fileType)),
        f.permissions.mode,
        Permissions.Symbolic(f.permissions.mode),
        f.size,
        text,
        FileKinds.ReadonlyMarker(f.permissions.Readonly()),
        f.name))
  }

  /** A printed line shows the entry's kind, its permissions as nine symbols, its marker and its name. */
  lemma DescribedShows(f: File, stamp: Timestamp -> Option<string>)
    requires Described(f, stamp).Ok?
    ensures var line := Described(f, stamp).value;
      line.name == f.name &&
      |line.symbolic| == 9 &&
      (forall k :: 0 <= k < 9 ==> line.symbolic[k] == Permissions.Shown(f.permissions.mode, k)) &&
      (line.readonly == "READONLY" <==> f.permissions.Readonly()) &&
      (line.readonly == "READONLY" <==>
        line.symbolic[1] == '-' && line.symbolic[4] == '-' && line.symbolic[7] == '-') &&
      (f.fileType.isDir ==> line.kind == "directory") &&
      (line.kind == "unknown" <==>
        !(f.fileType.isDir || f.fileType.isSymlink || f.fileType.isSocket ||
          f.fileType.isBlockDevice || f.fileType.isFile))
  {
    Permissions.SymbolicPerBit(f.permissions.mode);
    Permissions.SymbolicBits(f.permissions.mode);
    Permissions.NoWriteBits(f.permissions.mode);
    var k := FileKinds.Classify(f.fileType);
    if FileKinds.Label(k) == "unknown" {
      if k != FileKinds.Unknown {
        FileKinds.LabelsDistinct(k, FileKinds.Unknown);
      }
    }
    if k == FileKinds.Unknown {
      assert !FileKinds.Has(f.fileType, FileKinds.Priority[0]);
      assert !FileKinds.Has(f.fileType, FileKinds.Priority[1]);
      assert !FileKinds.Has(f.fileType, FileKinds.Priority[2]);
      assert !FileKinds.Has(f.fileType, FileKinds.Priority[3]);
      assert !FileKinds.Has(f.fileType, FileKinds.Priority[4]);
    }
  }

  /** Formatting one entry, building the permission column with `FormatPermissions`. */
  method Display(f: File, stamp: Timestamp -> Option<string>) returns (r: Result<Line>)
    ensures r == Described(f, stamp)
    ensures r.Err? <==> stamp(f.lastModified).None?
  {
    var symbolic := Permissions.FormatPermissions(f.permissions.mode);
    match stamp(f.lastModified)
    case None =>
      r := Err(FormatterError);
    case Some(text) =>
      var kind := FileKinds.Label(FileKinds.Classify(f.fileType));
      var readonly := FileKinds.ReadonlyMarker(f.permissions.Readonly());
      r := Ok(Line(kind, f.permissions.mode, symbolic, f.size, text, readonly, f.name));
  }

  /** One step of the loop: look the path up, then format its line. */
  function Visit(path: string, metadata: string -> Result<Metadata>, stamp: Timestamp -> Option<string>): Result<(File, Line)> {
    match Lookup(path, metadata)
    case Err(e) => Err(e)
    case Ok(f) =>
      match Described(f, stamp)
      case Err(e) => Err(e)
      case Ok(line) => Ok((f, line))
  }

  /**
   * The loop over the paths. `lines` is what reaches the output, in order;
   * `outcome` is the collected entries, or the error of the first path whose
   * step fails, after which no further path is looked at.
   */
  method ListFiles(paths: seq<string>, metadata: string -> Result<Metadata>, stamp: Timestamp -> Option<string>)
    returns (lines: seq<Line>, outcome: Result<seq<File>>)
    ensures |lines| <= |paths|
    ensures forall i :: 0 <= i < |lines| ==>
      Visit(paths[i], metadata, stamp).Ok? && Visit(paths[i], metadata, stamp).value.1 == lines[i]
    ensures outcome.Ok? <==> forall i :: 0 <= i < |paths| ==> Visit(paths[i], metadata, stamp).Ok?
    ensures outcome.Ok? ==>
      |lines| == |paths| && |outcome.value| == |paths| &&
      forall i :: 0 <= i < |paths| ==> Visit(paths[i], metadata, stamp) == Ok((outcome.value[i], lines[i]))
    ensures outcome.Err? ==>
      |lines| < |paths| && Visit(paths[|lines|], metadata, stamp) == Err(outcome.error)
  {
    lines := [];
    var files: seq<File> := [];
    var i := 0;
    while i < |paths|
      invariant i <= |paths| && |lines| == i && |files| == i
      invariant forall j :: 0 <= j < i ==> Visit(paths[j], metadata, stamp) == Ok((files[j], lines[j]))
    {
      var found := Lookup(paths[i], metadata);
      if found.Err? {
        return lines, Err(found.error);
      }
      var line := Display(found.value, stamp);
      if line.Err? {
        return lines, Err(line.error);
      }
      lines := lines + [line.value];
      files := files + [found.value];
      i := i + 1;
    }
    outcome := Ok(files);
  }
}
