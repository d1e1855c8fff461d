/** Symbolic rendering of the nine POSIX permission bits, as `ls -l` shows them. */
module Permissions {

  /** The unsigned 32-bit mode word that the platform reports for an entry. */
  type Mode = bv32

  /** Indexed by the value of one mode bit: a clear bit reads `-`, a set bit `r`. */
  const Chars: seq<char> := ['-', 'r']

  // The nine permission bits, octal 0o400 down to 0o001.
  const OwnerRead: Mode := 0x100
  const OwnerWrite: Mode := 0x80
  const OwnerExec: Mode := 0x40
  const GroupRead: Mode := 0x20
  const GroupWrite: Mode := 0x10
  const GroupExec: Mode := 0x8
  const OtherRead: Mode := 0x4
  const OtherWrite: Mode := 0x2
  const OtherExec: Mode := 0x1

  /** All nine permission bits (octal 0o777). */
  const PermissionBits: Mode := 0x1FF

  /** The three write bits (octal 0o222). */
  const WriteBits: Mode := 0x92

  /** Bit `j` of `mode` (bit 0 is the least significant) is set. */
  predicate Bit(mode: Mode, j: nat)
    requires j < 32
  {
    (mode >> j) & 1 == 1
  }

  /** The letter a set bit shows at display position `k`: `r`, `w`, `x` for owner, group and other. */
  function Letter(k: nat): char
    requires k < 9
  {
    "rwxrwxrwx"[k]
  }

  /** Per-bit rendering: display position `k` shows bit `8 - k`, as its letter or `-`. */
  function Shown(mode: Mode, k: nat): char
    requires k < 9
  {
    if Bit(mode, 8 - k) then Letter(k) else '-'
  }

  /** One `rwx` triad, read off the low three bits of `t`. */
  function Triad(t: Mode): string {
    [ if t & 4 != 0 then 'r' else '-',
      if t & 2 != 0 then 'w' else '-',
      if t & 1 != 0 then 'x' else '-' ]
  }

  /**
   * The conventional rendering, independent of how the program builds it:
   * the owner, group and other triads side by side.
   */
  function Symbolic(mode: Mode): string {
    Triad(mode >> 6) + Triad(mode >> 3) + Triad(mode)
  }

  // ---------------------------------------------------------------------------
  // The reference rendering and what it promises.

  lemma OwnerTriad(mode: Mode)
    ensures Triad(mode >> 6) == [Shown(mode, 0), Shown(mode, 1), Shown(mode, 2)]
  {
    assert ((mode >> 6) & 4 != 0) == Bit(mode, 8);
    assert ((mode >> 6) & 2 != 0) == Bit(mode, 7);
    assert ((mode >> 6) & 1 != 0) == Bit(mode, 6);
  }

  lemma GroupTriad(mode: Mode)
    ensures Triad(mode >> 3) == [Shown(mode, 3), Shown(mode, 4), Shown(mode, 5)]
  {
    assert ((mode >> 3) & 4 != 0) == Bit(mode, 5);
    assert ((mode >> 3) & 2 != 0) == Bit(mode, 4);
    assert ((mode >> 3) & 1 != 0) == Bit(mode, 3);
  }

  lemma OtherTriad(mode: Mode)
    ensures Triad(mode) == [Shown(mode, 6), Shown(mode, 7), Shown(mode, 8)]
  {
    assert (mode & 4 != 0) == Bit(mode, 2);
    assert (mode & 2 != 0) == Bit(mode, 1);
    assert (mode & 1 != 0) == Bit(mode, 0);
  }

  /** The triad rendering is the per-bit rendering: nine characters, each showing exactly one bit. */
  lemma SymbolicPerBit(mode: Mode)
    ensures |Symbolic(mode)| == 9
    ensures forall k :: 0 <= k < 9 ==> Symbolic(mode)[k] == Shown(mode, k)
  {
    OwnerTriad(mode);
    GroupTriad(mode);
    OtherTriad(mode);
  }

  /** Nine characters, every one of them `r`, `w`, `x` or `-`. */
  lemma SymbolicShape(mode: Mode)
    ensures |Symbolic(mode)| == 9
    ensures forall k :: 0 <= k < 9 ==> Symbolic(mode)[k] in {'r', 'w', 'x', '-'}
    ensures forall k :: 0 <= k < 9 ==> Symbolic(mode)[k] == '-' || Symbolic(mode)[k] == Letter(k)
  {
    SymbolicPerBit(mode);
  }

  /** Each position shows its letter exactly when its own permission bit is set, and `-` otherwise. */
  lemma SymbolicBits(mode: Mode)
    ensures |Symbolic(mode)| == 9
    ensures (Symbolic(mode)[0] == 'r') == (mode & OwnerRead != 0) && (Symbolic(mode)[0] == '-') == (mode & OwnerRead == 0)
    ensures (Symbolic(mode)[1] == 'w') == (mode & OwnerWrite != 0) && (Symbolic(mode)[1] == '-') == (mode & OwnerWrite == 0)
    ensures (Symbolic(mode)[2] == 'x') == (mode & OwnerExec != 0) && (Symbolic(mode)[2] == '-') == (mode & OwnerExec == 0)
    ensures (Symbolic(mode)[3] == 'r') == (mode & GroupRead != 0) && (Symbolic(mode)[3] == '-') == (mode & GroupRead == 0)
    ensures (Symbolic(mode)[4] == 'w') == (mode & GroupWrite != 0) && (Symbolic(mode)[4] == '-') == (mode & GroupWrite == 0)
    ensures (Symbolic(mode)[5] == 'x') == (mode & GroupExec != 0) && (Symbolic(mode)[5] == '-') == (mode & GroupExec == 0)
    ensures (Symbolic(mode)[6] == 'r') == (mode & OtherRead != 0) && (Symbolic(mode)[6] == '-') == (mode & OtherRead == 0)
    ensures (Symbolic(mode)[7] == 'w') == (mode & OtherWrite != 0) && (Symbolic(mode)[7] == '-') == (mode & OtherWrite == 0)
    ensures (Symbolic(mode)[8] == 'x') == (mode & OtherExec != 0) && (Symbolic(mode)[8] == '-') == (mode & OtherExec == 0)
  {
    OwnerTriad(mode);
    GroupTriad(mode);
    OtherTriad(mode);
  }

  /** No write bit is set exactly when none of the owner, group and other write bits is. */
  lemma NoWriteBits(mode: Mode)
    ensures (mode & WriteBits == 0) == (mode & OwnerWrite == 0 && mode & GroupWrite == 0 && mode & OtherWrite == 0)
  {
  }

  /** A triad depends on the low three bits of its argument only. */
  lemma TriadLowBits(t: Mode, u: Mode)
    requires t & 7 == u & 7
    ensures Triad(t) == Triad(u)
  {
    assert t & 4 == (t & 7) & 4 && u & 4 == (u & 7) & 4;
    assert t & 2 == (t & 7) & 2 && u & 2 == (u & 7) & 2;
    assert t & 1 == (t & 7) & 1 && u & 1 == (u & 7) & 1;
  }

  /** Bits above the nine permission bits (file type, set-id, sticky) leave the rendering unchanged. */
  lemma HighBitsIgnored(mode: Mode)
    ensures Symbolic(mode) == Symbolic(mode & PermissionBits)
  {
    var low := mode & PermissionBits;
    TriadLowBits(mode >> 6, low >> 6);
    TriadLowBits(mode >> 3, low >> 3);
    TriadLowBits(mode, low);
  }

  /** The two renderings the program is known for: 0o755 and 0o644. */
  lemma SymbolicExamples()
    ensures Symbolic(0x1ED) == "rwxr-xr-x"
    ensures Symbolic(0x1A4) == "rw-r--r--"
  {
  }

  // ---------------------------------------------------------------------------
  // The two-pass construction.

  /** `String::replace_range(lo..hi, t)`: the characters in `lo..hi` give way to `t`. */
  method ReplaceRange(s: string, lo: nat, hi: nat, t: string) returns (r: string)
    requires lo <= hi <= |s|
    ensures |r| == |s| - (hi - lo) + |t|
    ensures |t| == 1 && hi == lo + 1 ==> r == s[lo := t[0]]
  {
    r := s[..lo] + t + s[hi..];
    assert |t| == 1 && hi == lo + 1 ==> r == s[lo := t[0]] by {
      if |t| == 1 && hi == lo + 1 {
        assert forall k :: 0 <= k < |s| ==> r[k] == s[lo := t[0]][k];
      }
    }
  }

  /** What the first pass writes at position `k`: `r` for a set bit, `-` for a clear one. */
  function FirstPass(mode: Mode, k: nat): char
    requires k < 9
  {
    if Bit(mode, 8 - k) then 'r' else '-'
  }

  /** A bit taken out with `& 1` picks `r` from `Chars` when set and `-` when clear. */
  lemma CharOfBit(mode: Mode, i: nat)
    requires i < 32
    ensures ((mode >> i) & 1) as int < |Chars|
    ensures Chars[((mode >> i) & 1) as int] == if Bit(mode, i) then 'r' else '-'
  {
    if (mode >> i) & 1 == 0 {
      assert ((mode >> i) & 1) as int == 0;
    } else {
      assert (mode >> i) & 1 == 1;
    }
  }

  /** The masks the second pass tests select the bits the first pass read at the same positions. */
  lemma WriteExecBits(mode: Mode)
    ensures (mode & OwnerWrite != 0) == Bit(mode, 7) && (mode & OwnerExec != 0) == Bit(mode, 6)
    ensures (mode & GroupWrite != 0) == Bit(mode, 4) && (mode & GroupExec != 0) == Bit(mode, 3)
    ensures (mode & OtherWrite != 0) == Bit(mode, 1) && (mode & OtherExec != 0) == Bit(mode, 0)
  {
  }

  /** One conditional overwrite of the second pass. */
  ghost function Mark(s: string, isSet: bool, p: nat, c: char): string
    requires p < |s|
  {
    if isSet then s[p := c] else s
  }

  /** The whole second pass, applied to the string the first pass left. */
  ghost function Overwritten(s: string, mode: Mode): string
    requires |s| == 9
  {
    var owner := Mark(Mark(s, mode & OwnerWrite != 0, 1, 'w'), mode & OwnerExec != 0, 2, 'x');
    var group := Mark(Mark(owner, mode & GroupWrite != 0, 4, 'w'), mode & GroupExec != 0, 5, 'x');
    Mark(Mark(group, mode & OtherWrite != 0, 7, 'w'), mode & OtherExec != 0, 8, 'x')
  }

  /** Positions below `upto` already show the final rendering; the rest still hold the first pass. */
  ghost predicate Stage(s: string, mode: Mode, upto: nat) {
    |s| == 9 &&
    forall k :: 0 <= k < 9 ==> s[k] == if k < upto then Shown(mode, k) else FirstPass(mode, k)
  }

  /** At a read position the first pass already wrote what the rendering shows. */
  lemma ReadDone(s: string, mode: Mode, p: nat)
    requires Stage(s, mode, p) && (p == 0 || p == 3 || p == 6)
    ensures Stage(s, mode, p + 1)
  {
  }

  /** Overwriting a write or execute position exactly when its bit is set finishes that position. */
  lemma MarkStep(s: string, mode: Mode, isSet: bool, p: nat, c: char)
    requires p < 9 && p != 0 && p != 3 && p != 6
    requires Stage(s, mode, p) && c == Letter(p) && isSet == Bit(mode, 8 - p)
    ensures Stage(Mark(s, isSet, p, c), mode, p + 1)
  {
  }

  /** The two overwrites of one triad finish its write and execute positions. */
  lemma TriadStep(s: string, mode: Mode, wSet: bool, xSet: bool, p: nat)
    requires p == 1 || p == 4 || p == 7
    requires Stage(s, mode, p) && Letter(p) == 'w' && Letter(p + 1) == 'x'
    requires wSet == Bit(mode, 8 - p) && xSet == Bit(mode, 7 - p)
    ensures Stage(Mark(Mark(s, wSet, p, 'w'), xSet, p + 1, 'x'), mode, p + 2)
  {
    MarkStep(s, mode, wSet, p, 'w');
    MarkStep(Mark(s, wSet, p, 'w'), mode, xSet, p + 1, 'x');
  }

  /** After the first pass, the second pass leaves every position showing its own bit. */
  lemma OverwrittenPerBit(s: string, mode: Mode)
    requires |s| == 9 && forall k :: 0 <= k < 9 ==> s[k] == FirstPass(mode, k)
    ensures |Overwritten(s, mode)| == 9
    ensures forall k :: 0 <= k < 9 ==> Overwritten(s, mode)[k] == Shown(mode, k)
  {
    WriteExecBits(mode);
    ReadDone(s, mode, 0);
    TriadStep(s, mode, mode & OwnerWrite != 0, mode & OwnerExec != 0, 1);
    var owner := Mark(Mark(s, mode & OwnerWrite != 0, 1, 'w'), mode & OwnerExec != 0, 2, 'x');
    ReadDone(owner, mode, 3);
    TriadStep(owner, mode, mode & GroupWrite != 0, mode & GroupExec != 0, 4);
    var group := Mark(Mark(owner, mode & GroupWrite != 0, 4, 'w'), mode & GroupExec != 0, 5, 'x');
    ReadDone(group, mode, 6);
    TriadStep(group, mode, mode & OtherWrite != 0, mode & OtherExec != 0, 7);
  }

  /** The two passes together produce the conventional rendering. */
  lemma TwoPassesRender(s: string, mode: Mode)
    requires |s| == 9 && forall k :: 0 <= k < 9 ==> s[k] == FirstPass(mode, k)
    ensures Overwritten(s, mode) == Symbolic(mode)
  {
    OverwrittenPerBit(s, mode);
    SymbolicPerBit(mode);
  }

  /**
   * `format_permissions`: a first pass pushes `r` for every set bit and `-`
   * for every clear one, from bit 8 down to bit 0; then the write and execute
   * positions of owner, group and other are overwritten with `w` and `x`
   * where their bit is set.
   */
  method FormatPermissions(mode: Mode) returns (result: string)
    ensures result == Symbolic(mode)
  {
    result := [];
    for i := 9 downto 0
      invariant |result| == 9 - i
      invariant forall k :: 0 <= k < |result| ==> result[k] == FirstPass(mode, k)
    {
      CharOfBit(mode, i);
      result := result + [Chars[((mode >> i) & 1) as int]];
    }
    TwoPassesRender(result, mode);

    if mode & OwnerWrite != 0 {
      result := ReplaceRange(result, 1, 2, "w");
    }
    if mode & OwnerExec != 0 {
      result := ReplaceRange(result, 2, 3, "x");
    }
    if mode & GroupWrite != 0 {
      result := ReplaceRange(result, 4, 5, "w");
    }
    if mode & GroupExec != 0 {
      result := ReplaceRange(result, 5, 6, "x");
    }
    if mode & OtherWrite != 0 {
      result := ReplaceRange(result, 7, 8, "w");
    }
    if mode & OtherExec != 0 {
      result := ReplaceRange(result, 8, 9, "x");
    }
  }
}
