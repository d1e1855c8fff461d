/** The type label and the read-only marker shown for a listed entry. */
module FileKinds {

  /** The type predicates the platform answers for an entry; nothing forces them to be exclusive. */
  datatype FileType = FileType(isDir: bool, isSymlink: bool, isSocket: bool, isBlockDevice: bool, isFile: bool)

  /** The kinds a listed entry is labelled with. */
  datatype Kind = Directory | Symlink | Socket | Disk | RegularFile | Unknown

  /** The order in which the type predicates are consulted. */
  const Priority: seq<Kind> := [Directory, Symlink, Socket, Disk, RegularFile]

  /** The type predicate that stands for kind `k` holds of `t`; no predicate stands for `Unknown`. */
  predicate Has(t: FileType, k: Kind) {
    match k
    case Directory => t.isDir
    case Symlink => t.isSymlink
    case Socket => t.isSocket
    case Disk => t.isBlockDevice
    case RegularFile => t.isFile
    case Unknown => false
  }

  /** Position of `k` in `Priority`; `Unknown` comes after all of them. */
  function Rank(k: Kind): (r: nat)
    ensures r <= |Priority|
    ensures r < |Priority| ==> Priority[r] == k
    ensures r == |Priority| <==> k == Unknown
  {
    match k
    case Directory => 0
    case Symlink => 1
    case Socket => 2
    case Disk => 3
    case RegularFile => 4
    case Unknown => 5
  }

  /**
   * The first-match chain of the display: directory, then symbolic link,
   * socket, block device and regular file; `Unknown` when none holds.
   */
  function Classify(t: FileType): (k: Kind)
    ensures k != Unknown ==> Has(t, k)
    ensures forall j :: 0 <= j < |Priority| && Has(t, Priority[j]) ==> Rank(k) <= j
    ensures k == Unknown <==> forall j :: 0 <= j < |Priority| ==> !Has(t, Priority[j])
  {
    if t.isDir then assert Has(t, Priority[0]); Directory
    else if t.isSymlink then assert Has(t, Priority[1]); Symlink
    else if t.isSocket then assert Has(t, Priority[2]); Socket
    else if t.isBlockDevice then assert Has(t, Priority[3]); Disk
    else if t.isFile then assert Has(t, Priority[4]); RegularFile
    else Unknown
  }

  /** Reference reading of a first-match chain: the first kind of `ks` whose predicate holds. */
  function FirstMatch(t: FileType, ks: seq<Kind>): Kind {
    if ks == [] then Unknown
    else if Has(t, ks[0]) then ks[0]
    else FirstMatch(t, ks[1..])
  }

  /** The first kind of `ks` that holds precedes every other kind of `ks` that holds. */
  lemma {:induction false} FirstMatchIsFirst(t: FileType, ks: seq<Kind>)
    ensures FirstMatch(t, ks) == Unknown <==> forall j :: 0 <= j < |ks| ==> !Has(t, ks[j])
    ensures FirstMatch(t, ks) != Unknown ==>
      exists i :: 0 <= i < |ks| && ks[i] == FirstMatch(t, ks) && Has(t, ks[i]) &&
        forall j :: 0 <= j < i ==> !Has(t, ks[j])
  {
    if ks != [] {
      FirstMatchIsFirst(t, ks[1..]);
      if !Has(t, ks[0]) && FirstMatch(t, ks) != Unknown {
        var i :| 0 <= i < |ks[1..]| && ks[1..][i] == FirstMatch(t, ks) && Has(t, ks[1..][i]) &&
          forall j :: 0 <= j < i ==> !Has(t, ks[1..][j]);
        assert forall j :: 0 <= j < i + 1 ==> !Has(t, ks[j]) by {
          forall j | 0 <= j < i + 1
            ensures !Has(t, ks[j])
          {
            if j > 0 {
              assert ks[j] == ks[1..][j - 1];
            }
          }
        }
      }
      if FirstMatch(t, ks) == Unknown {
        forall j | 0 <= j < |ks|
          ensures !Has(t, ks[j])
        {
          if j > 0 {
            assert ks[j] == ks[1..][j - 1];
          }
        }
      }
    }
  }

  /** The classification is the first match over the priority order. */
  lemma ClassifyIsFirstMatch(t: FileType)
    ensures Classify(t) == FirstMatch(t, Priority)
  {
    assert FirstMatch(t, Priority[4..]) == if t.isFile then RegularFile else Unknown;
    assert FirstMatch(t, Priority[3..]) == if t.isBlockDevice then Disk else FirstMatch(t, Priority[4..]);
    assert FirstMatch(t, Priority[2..]) == if t.isSocket then Socket else FirstMatch(t, Priority[3..]);
    assert FirstMatch(t, Priority[1..]) == if t.isSymlink then Symlink else FirstMatch(t, Priority[2..]);
  }

  /** A directory is labelled a directory, whatever else the platform reports. */
  lemma DirectoryWins(t: FileType)
    requires t.isDir
    ensures Classify(t) == Directory
  {
  }

  /** When exactly one type predicate holds, its kind is chosen. */
  lemma SoleFlag(t: FileType, k: Kind)
    requires k != Unknown && Has(t, k)
    requires forall other :: other != k ==> !Has(t, other)
    ensures Classify(t) == k
  {
    assert Has(t, Priority[Rank(k)]);
  }

  /** The text printed for each kind. */
  function Label(k: Kind): (s: string)
    ensures |s| > 0 && ' ' !in s
  {
    match k
    case Directory => "directory"
    case Symlink => "symlink"
    case Socket => "socket"
    case Disk => "disk"
    case RegularFile => "file"
    case Unknown => "unknown"
  }

  /** Different kinds are printed differently, so the label identifies the kind. */
  lemma LabelsDistinct(a: Kind, b: Kind)
    requires a != b
    ensures Label(a) != Label(b)
  {
  }

  /** The read-only column: `READONLY` for a read-only entry, `-` otherwise. */
  function ReadonlyMarker(readonly: bool): (s: string)
    ensures s == "READONLY" <==> readonly
    ensures s == "-" <==> !readonly
    ensures |s| > 0 && ' ' !in s
  {
    if readonly then "READONLY" else "-"
  }
}
