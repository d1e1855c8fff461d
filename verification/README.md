# stot, modelled in Dafny

`stot` is a small command-line lister. It takes paths as its arguments, or one path per line
on standard input when input is not a terminal. For each path it prints one line with:

- the entry's type (`directory`, `symlink`, `socket`, `disk`, `file` or `unknown`);
- the mode word in octal and its `ls -l` style rendering (`rwxr-xr-x`);
- the human-readable size and the local modification time;
- a `READONLY` / `-` marker;
- the name.

The first path whose lookup or line fails ends the run with that error.

The model has three modules:

- `Permissions` (`permissions.dfy`) covers `format_permissions`. It is a method that follows
  the program's two passes:
  - the first pass loops over bits 8 down to 0 and pushes `r` or `-` from the two-character table;
  - the second pass makes six conditional one-character `replace_range` overwrites with `w` and `x`.
  
  The method is proved equal to `Symbolic`, an independent rendering built from owner, group and
  other `rwx` triads. Properties proved about `Symbolic`:
  - it is nine characters long and every position shows exactly its own bit;
  - its alphabet is `r`, `w`, `x`, `-`;
  - it ignores bits above 0o777;
  - 0o755 renders as `rwxr-xr-x` and 0o644 as `rw-r--r--`.
  
  The mode is an unsigned 32-bit word (`bv32`), as on the platform.
- `FileKinds` (`filekinds.dfy`) covers two things:
  - the first-match type classification with its labels, proved equal to a generic first-match
    reading of the priority order;
  - the read-only marker.
- `Lister` (`lister.dfy`) covers the record built for each path and the line printed for it. It
  also covers the fail-fast loop over all paths. The filesystem lookup and the local-time
  rendering of the time stamp are parameters (oracles). As on Unix, the read-only flag is not
  an independent input: it holds exactly when none of the write bits 0o222 is set.

## Model

| member | source | states |
|---|---|---|
| Permissions.FormatPermissions | src/main.rs:98-128 | the two-pass construction yields exactly the owner/group/other triad rendering of the mode |
| Permissions.SymbolicPerBit | src/main.rs:100-128 | the rendering has nine characters and position k shows the letter of `rwxrwxrwx` at k when bit 8-k is set, `-` when it is clear |
| Permissions.SymbolicShape | src/main.rs:101-105 | the rendering always has length 9, uses only `r`, `w`, `x`, `-`, and each position holds `-` or its own letter |
| Permissions.SymbolicBits | src/main.rs:103-125 | positions 0,3,6 are `r` iff bits 0o400, 0o040, 0o004 are set; 1,4,7 are `w` iff 0o200, 0o020, 0o002; 2,5,8 are `x` iff 0o100, 0o010, 0o001; otherwise `-` |
| Permissions.HighBitsIgnored | src/main.rs:103-125 | bits above 0o777 (type, set-id, sticky) do not change the rendering |
| Permissions.SymbolicExamples | src/main.rs:100-128 | 0o755 renders as `rwxr-xr-x` and 0o644 as `rw-r--r--` |
| Permissions.ReplaceRange | src/main.rs:109 | replacing a one-character range with one character overwrites exactly that position and keeps the length |
| FileKinds.Classify | src/main.rs:46-53 | the chosen kind holds, no kind earlier in the order directory, symlink, socket, block device, file holds, and the result is unknown iff none holds |
| FileKinds.ClassifyIsFirstMatch | src/main.rs:46-53 | the classification agrees with the generic first match over the priority order |
| FileKinds.FirstMatchIsFirst | src/main.rs:46-53 | a first match is unknown iff no candidate holds; otherwise it is a holding candidate preceded only by candidates that do not hold |
| FileKinds.DirectoryWins | src/main.rs:47 | an entry reported as a directory is labelled a directory whatever other flags are set |
| FileKinds.SoleFlag | src/main.rs:46-53 | when exactly one type flag holds, that kind is chosen |
| FileKinds.Label | src/main.rs:47-52 | every label is a non-empty word without spaces |
| FileKinds.LabelsDistinct | src/main.rs:47-52 | different kinds get different labels |
| FileKinds.ReadonlyMarker | src/main.rs:30-34 | the marker is `READONLY` iff the entry is read-only and `-` iff it is not; it is one word |
| Lister.Lookup | src/main.rs:81-89 | a failed lookup fails with its error, then a missing modification time fails with its error; otherwise the record is named by the path as given and carries size, type, permissions and time |
| Lister.DescribedShows | src/main.rs:28-65 | a formatted line carries the name, the nine-symbol per-bit rendering, the marker `READONLY` exactly when the entry is read-only, which is exactly when the owner, group and other write positions all show `-`, `directory` for directories and `unknown` exactly when no type flag holds |
| Lister.Display | src/main.rs:28-65 | formatting fails (as a formatter error) exactly when `stamp` yields nothing, i.e. the local offset or the format description is unavailable (a time that cannot be formatted still prints, as a placeholder); otherwise the line holds the label, mode, symbolic permissions, size, time stamp, marker and name |
| Lister.ListFiles | src/main.rs:78-93 | lines are printed for a prefix of the paths, each the successful step for its path; the run succeeds iff every step does, collecting every entry in order; otherwise it fails with the error of the path right after the printed prefix |

## Left out

- Colours and bold text on every field are not modelled; the line fields are plain strings.
- The human-readable size rendering (an external crate) is not modelled; the line carries the raw size.
- The octal rendering of the mode word is not modelled; the line carries the mode word itself.
- The local-time conversion and the date format are not modelled. This includes the `[no date]` fallback when formatting fails. They are the `stamp` parameter of `Lister.Display`, which yields nothing when the local offset or the format description is unavailable.
- Joining the fields into one line with spaces, parentheses and quotes is not modelled; `Lister.Line` keeps the fields in their printed order.
- Choosing between standard input and the arguments, by checking whether standard input is a terminal, is not modelled. `Lister.ListFiles` takes the resulting path list. The panic on an unreadable input line is not modelled either.
- The filesystem lookup is the `metadata` parameter, and its errors are opaque codes. It follows symbolic links, so on a real system it would not report a link; the model keeps the type flags as reported.
- Lister.ListFiles: write failures on standard output are not modelled; printing a formatted line always succeeds.
- Permissions.ReplaceRange: the contract characterises the length in general, but the contents only for the one-character replacements the program performs.
