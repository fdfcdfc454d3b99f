/** The USTAR bundle writer of app-sdk, byte by byte, and the reader beside it. */
module Tar {
  import opened Wrappers
  import opened Collections
  import opened Text
  import opened Utf8

  const BLOCK: nat := 512

  type Bytes = seq<byte>

  datatype File = File(path: string, data: Bytes)

  datatype TarError = NotUstarPath | TooLarge

  function Fill(n: nat, b: byte): (s: Bytes)
    ensures |s| == n
  {
    seq(n, _ => b)
  }

  predicate IsAscii(s: string) { forall i :: 0 <= i < |s| ==> (s[i] as int) < 128 }

  predicate UstarPath(path: string) { IsAscii(path) && |ToUtf8(path)| <= 100 }

  // ---- the header, field by field ----

  /** `s` with `data` copied over it from `at`. */
  function Splice(s: Bytes, at: nat, data: Bytes): (r: Bytes)
    requires at + |data| <= |s|
    ensures |r| == |s|
  {
    s[..at] + data + s[at + |data|..]
  }

  /** `write_octal`: digits padded with zeros on the left and closed by a NUL, if they fit. */
  function Octal(value: nat, width: nat): Option<Bytes>
    requires width > 0
  {
    var digits := Numeral(value, 8);
    if |digits| <= width - 1 then Some(ToUtf8(Zeros(width - 1 - |digits|) + digits) + [0]) else None
  }

  function Sum(s: Bytes): nat
  {
    if s == [] then 0 else Sum(s[..|s| - 1]) + s[|s| - 1]
  }

  /** The fields up to the modification time. */
  function Front(path: string, size: Bytes): (h: Bytes)
    requires UstarPath(path) && |size| == 12
    ensures |h| == BLOCK
  {
    var h := Splice(Fill(BLOCK, 0), 0, ToUtf8(path));
    var h := Splice(h, 100, Fill(4, 48) + [54, 52, 52, 0]);
    var h := Splice(h, 108, Fill(7, 48) + [0]);
    var h := Splice(h, 116, Fill(7, 48) + [0]);
    var h := Splice(h, 124, size);
    Splice(h, 136, Fill(11, 48) + [0])
  }

  /** Everything but the checksum, whose field holds spaces. */
  function Unsigned(path: string, size: Bytes): (h: Bytes)
    requires UstarPath(path) && |size| == 12
    ensures |h| == BLOCK
  {
    var h := Splice(Front(path, size), 148, Fill(8, 32));
    var h := Splice(h, 156, [48]);
    var h := Splice(h, 257, [117, 115, 116, 97, 114, 0]);
    Splice(h, 263, [48, 48])
  }

  /** `{:06o}` and then NUL and a space. */
  function ChecksumText(sum: nat): Bytes
  {
    var digits := Numeral(sum, 8);
    ToUtf8(Zeros(if |digits| < 6 then 6 - |digits| else 0) + digits) + [0, 32]
  }

  lemma {:induction false} SumBound(s: Bytes)
    ensures Sum(s) <= 255 * |s|
  {
    if s != [] { SumBound(s[..|s| - 1]); }
  }

  lemma {:induction false} AsciiBytes(s: string)
    requires IsAscii(s)
    ensures |ToUtf8(s)| == |s| && forall i :: 0 <= i < |s| ==> ToUtf8(s)[i] == s[i] as int
  {
    if s != [] {
      AsciiBytes(s[1..]);
      assert ToUtf8(s) == [s[0] as int] + ToUtf8(s[1..]);
    }
  }

  lemma {:induction false} DigitCount(n: nat, k: nat)
    requires k > 0
    ensures |Numeral(n, 8)| <= k <==> n < Power8(k)
    decreases n
  {
    if n >= 8 {
      if k > 1 { DigitCount(n / 8, k - 1); }
    } else {
      Power8Grows(k);
    }
  }

  lemma {:induction false} Power8Grows(k: nat)
    requires k > 0
    ensures Power8(k) >= 8
  {
    if k > 1 { Power8Grows(k - 1); }
  }

  function Power8(k: nat): nat { if k == 0 then 1 else 8 * Power8(k - 1) }

  lemma DigitsAscii(n: nat, k: nat)
    ensures IsAscii(Zeros(k) + Numeral(n, 8))
  {
    var s := Zeros(k) + Numeral(n, 8);
    forall i | 0 <= i < |s| ensures (s[i] as int) < 128 {
      assert i >= k ==> s[i] == Numeral(n, 8)[i - k];
    }
  }

  /** A header's byte sum always prints in six digits, so its field is exactly filled. */
  lemma ChecksumFits(h: Bytes)
    requires |h| == BLOCK
    ensures |Numeral(Sum(h), 8)| <= 6 && |ChecksumText(Sum(h))| == 8
  {
    SumBound(h);
    DigitCount(Sum(h), 6);
    assert Power8(6) == 262144 by { assert Power8(3) == 512; }
    var k := 6 - |Numeral(Sum(h), 8)|;
    DigitsAscii(Sum(h), k);
    AsciiBytes(Zeros(k) + Numeral(Sum(h), 8));
  }

  function Header(path: string, size: Bytes): (h: Bytes)
    requires UstarPath(path) && |size| == 12
    ensures |h| == BLOCK
  {
    var u := Unsigned(path, size);
    ChecksumFits(u);
    Splice(u, 148, ChecksumText(Sum(u)))
  }

  lemma OctalWidth(value: nat, width: nat)
    requires width > 0
    ensures Octal(value, width).Some? ==> |Octal(value, width).value| == width
  {
    var digits := Numeral(value, 8);
    if |digits| <= width - 1 {
      DigitsAscii(value, width - 1 - |digits|);
      AsciiBytes(Zeros(width - 1 - |digits|) + digits);
    }
  }

  function Padding(n: nat): nat { (BLOCK - n % BLOCK) % BLOCK }

  /** One file: header, contents, zeros up to a whole block. */
  function Block(f: File): Result<Bytes, TarError>
  {
    if !UstarPath(f.path) then Err(NotUstarPath)
    else
      var size := Octal(|f.data|, 12);
      if size.None? then Err(TooLarge)
      else
        OctalWidth(|f.data|, 12);
        Ok(Header(f.path, size.value) + f.data + Fill(Padding(|f.data|), 0))
  }

  function Blocks(files: seq<File>): Result<Bytes, TarError>
  {
    if files == [] then Ok([])
    else
      var n := |files| - 1;
      var before := Blocks(files[..n]);
      if before.Err? then before
      else
        var last := Block(files[n]);
        if last.Err? then last else Ok(before.value + last.value)
  }

  function Archive(files: seq<File>): Result<Bytes, TarError>
  {
    var blocks := Blocks(files);
    if blocks.Err? then blocks else Ok(blocks.value + Fill(1024, 0))
  }

  // ---- the writer, in place ----

  method Copy(a: array<byte>, at: nat, data: Bytes)
    requires at + |data| <= a.Length
    modifies a
    ensures a[..] == Splice(old(a[..]), at, data)
  {
    hide Splice;
    ghost var start := a[..];
    SpliceNothing(start, at);
    for i := 0 to |data|
      invariant a[..] == Splice(start, at, data[..i])
    {
      SpliceOne(start, at, data, i);
      a[at + i] := data[i];
    }
    assert data[..|data|] == data;
  }

  lemma SpliceNothing(s: Bytes, at: nat)
    requires at <= |s|
    ensures Splice(s, at, []) == s
  {}

  lemma SpliceOne(s: Bytes, at: nat, data: Bytes, i: nat)
    requires at + |data| <= |s| && i < |data|
    ensures Splice(s, at, data[..i])[at + i := data[i]] == Splice(s, at, data[..i + 1])
  {
    assert data[..i + 1] == data[..i] + [data[i]];
  }

  /** Into the slice `a[at..at + width]`. */
  method WriteOctal(a: array<byte>, at: nat, width: nat, value: nat) returns (ok: bool)
    requires width > 0 && at + width <= a.Length
    modifies a
    ensures ok == Octal(value, width).Some?
    ensures ok ==> |Octal(value, width).value| == width && a[..] == Splice(old(a[..]), at, Octal(value, width).value)
    ensures !ok ==> a[..] == old(a[..])
  {
    OctalWidth(value, width);
    var field := Octal(value, width);
    ok := field.Some?;
    if ok { Copy(a, at, field.value); }
  }

  lemma ZeroOctal(width: nat)
    requires width > 1
    ensures Octal(0, width) == Some(Fill(width - 1, 48) + [0])
  {
    var s := Zeros(width - 2) + Numeral(0, 8);
    DigitsAscii(0, width - 2);
    AsciiBytes(s);
    assert s == Zeros(width - 1);
    assert ToUtf8(s) == Fill(width - 1, 48);
  }

  lemma ModeOctal()
    ensures Octal(420, 8) == Some(Fill(4, 48) + [54, 52, 52, 0])
  {
    assert Numeral(6, 8) == "6" && Numeral(52, 8) == "64";
    var n := Numeral(420, 8);
    assert n == "644";
    var s := Zeros(4) + n;
    DigitsAscii(420, 4);
    AsciiBytes(s);
    hide ToUtf8, Numeral;
    var b := ToUtf8(s);
    assert b[..4] == Fill(4, 48);
    assert b[4] == 54 && b[5] == 52 && b[6] == 52;
    assert b + [0] == Fill(4, 48) + [54, 52, 52, 0];
  }

  method BuildHeader(path: string, size: nat) returns (header: array<byte>, ok: bool)
    requires UstarPath(path)
    ensures fresh(header) && header.Length == BLOCK
    ensures ok == Octal(size, 12).Some?
    ensures ok ==> |Octal(size, 12).value| == 12 && header[..] == Header(path, Octal(size, 12).value)
  {
    hide Octal, Splice, Header;
    ModeOctal();
    ZeroOctal(8);
    ZeroOctal(12);
    header := new byte[BLOCK](_ => 0);
    assert header[..] == Fill(BLOCK, 0);
    Copy(header, 0, ToUtf8(path));
    ok := WriteOctal(header, 100, 8, 420);
    ok := WriteOctal(header, 108, 8, 0);
    ok := WriteOctal(header, 116, 8, 0);
    ok := WriteOctal(header, 124, 12, size);
    if !ok { return; }
    ok := WriteOctal(header, 136, 12, 0);
    Copy(header, 148, Fill(8, 32));
    Copy(header, 156, [48]);
    Copy(header, 257, [117, 115, 116, 97, 114, 0]);
    Copy(header, 263, [48, 48]);
    ghost var field := Octal(size, 12).value;
    assert header[..] == Unsigned(path, field);
    var checksum: nat := 0;
    for i := 0 to BLOCK
      invariant checksum == Sum(header[..i])
    {
      assert header[..i + 1][..i] == header[..i];
      checksum := checksum + header[i];
    }
    assert header[..BLOCK] == header[..];
    ChecksumFits(header[..]);
    Copy(header, 148, ChecksumText(checksum));
    HeaderIs(path, field);
  }

  lemma HeaderIs(path: string, size: Bytes)
    requires UstarPath(path) && |size| == 12
    ensures var u := Unsigned(path, size);
            |ChecksumText(Sum(u))| == 8 && Header(path, size) == Splice(u, 148, ChecksumText(Sum(u)))
  {
    ChecksumFits(Unsigned(path, size));
  }

  /** `write_tar`; what was written before an error is lost with the temporary file. */
  method WriteTar(files: seq<File>) returns (r: Result<Bytes, TarError>)
    ensures r == Archive(files)
  {
    hide UstarPath, Header, Octal;
    var out: Bytes := [];
    for n := 0 to |files|
      invariant Blocks(files[..n]) == Ok(out)
    {
      var f := files[n];
      assert files[..n + 1][..n] == files[..n];
      PrefixFails(files, n + 1);
      if !UstarPath(f.path) { return Err(NotUstarPath); }
      var header, ok := BuildHeader(f.path, |f.data|);
      if !ok { return Err(TooLarge); }
      out := out + (header[..] + f.data + Fill(Padding(|f.data|), 0));
    }
    assert files[..|files|] == files;
    return Ok(out + Fill(1024, 0));
  }

  lemma {:induction false} PrefixFails(files: seq<File>, n: nat)
    requires n <= |files|
    ensures Blocks(files[..n]).Err? ==> Blocks(files) == Blocks(files[..n])
  {
    if n == |files| {
      assert files[..n] == files;
    } else {
      PrefixFails(files[..|files| - 1], n);
      assert files[..|files| - 1][..n] == files[..n];
    }
  }

  // ---- the reader ----

  predicate AllZero(s: Bytes) { forall i :: 0 <= i < |s| ==> s[i] == 0 }

  /** Up to the first NUL, or all of it. */
  function CString(s: Bytes): Bytes
  {
    if s == [] || s[0] == 0 then [] else [s[0]] + CString(s[1..])
  }

  /** `usize::from_str_radix(.., 8)`. */
  function ParseOctal(s: string): Option<nat>
  {
    var digits := if StartsWith(s, "+") then s[1..] else s;
    if digits == "" || !AllBelow(digits, 8) || NumeralValue(digits, 8) > USIZE_MAX then None
    else Some(NumeralValue(digits, 8))
  }

  function EntryName(header: Bytes): Option<string>
    requires |header| == BLOCK
  {
    FromUtf8(CString(header[..100]))
  }

  function EntrySize(header: Bytes): Option<nat>
    requires |header| == BLOCK
  {
    var text := FromUtf8(CString(header[124..136]));
    if text.None? then None else ParseOctal(Trim(text.value))
  }

  function Blocked(size: nat): nat { (size + BLOCK - 1) / BLOCK * BLOCK }

  predicate AtEntry(bytes: Bytes) { BLOCK <= |bytes| && !AllZero(bytes[..BLOCK]) }

  /** The entries from the front; `None` where the reader would panic. Contents cut off by the end of
      the archive come back shorter. */
  function Entries(bytes: Bytes): Option<seq<File>>
    decreases |bytes|
  {
    if !AtEntry(bytes) then Some([])
    else
      var name, size := EntryName(bytes[..BLOCK]), EntrySize(bytes[..BLOCK]);
      if name.None? || size.None? then None
      else
        var end := Min(BLOCK + size.value, |bytes|);
        var next := Min(BLOCK + Blocked(size.value), |bytes|);
        var rest := Entries(bytes[next..]);
        if rest.None? then None else Some([File(name.value, bytes[BLOCK..end])] + rest.value)
  }

  function Names(files: seq<File>): (names: seq<string>)
    ensures |names| == |files|
  {
    seq(|files|, i requires 0 <= i < |files| => files[i].path)
  }

  /** `tar_entry_names`. */
  method TarEntryNames(bytes: Bytes) returns (names: Option<seq<string>>)
    ensures names == NamesOf(Entries(bytes))
  {
    hide EntryName, EntrySize, AllZero, Blocked, EntriesAt, Entries;
    var found: seq<string> := [];
    var offset := 0;
    NamesFrom(bytes);
    while offset + BLOCK <= |bytes| && !AllZero(bytes[offset..offset + BLOCK])
      invariant NamesOf(Entries(bytes)) == Behind(found, NamesOf(EntriesAt(bytes, offset)))
      decreases |bytes| - offset
    {
      var header := bytes[offset..offset + BLOCK];
      NameStep(bytes, offset, found);
      var name, size := EntryName(header), EntrySize(header);
      if name.None? || size.None? { return None; }
      found := found + [name.value];
      offset := offset + BLOCK + Blocked(size.value);
    }
    NamesEnd(bytes, offset, found);
    return Some(found);
  }

  function NamesOf(files: Option<seq<File>>): Option<seq<string>>
  {
    if files.None? then None else Some(Names(files.value))
  }

  function Behind(found: seq<string>, names: Option<seq<string>>): Option<seq<string>>
  {
    if names.None? then None else Some(found + names.value)
  }

  /** The entries from an offset on; none from beyond the end. */
  function EntriesAt(bytes: Bytes, offset: nat): Option<seq<File>> { Entries(bytes[Min(offset, |bytes|)..]) }

  lemma NamesFrom(bytes: Bytes)
    ensures NamesOf(Entries(bytes)) == Behind([], NamesOf(EntriesAt(bytes, 0)))
  {
    assert bytes[0..] == bytes;
    hide Entries;
    if Entries(bytes).Some? { assert [] + Names(Entries(bytes).value) == Names(Entries(bytes).value); }
  }

  lemma EntriesUnfold(bytes: Bytes)
    requires AtEntry(bytes)
    ensures var name, size := EntryName(bytes[..BLOCK]), EntrySize(bytes[..BLOCK]);
            && (name.None? || size.None? ==> Entries(bytes) == None)
            && (name.Some? && size.Some? ==>
                  var rest := EntriesAt(bytes, BLOCK + Blocked(size.value));
                  Entries(bytes) ==
                  if rest.None? then None
                  else Some([File(name.value, bytes[BLOCK..Min(BLOCK + size.value, |bytes|)])] + rest.value))
  {
    hide EntryName, EntrySize, AtEntry;
  }

  lemma NameStep(bytes: Bytes, offset: nat, found: seq<string>)
    requires offset + BLOCK <= |bytes| && !AllZero(bytes[offset..offset + BLOCK])
    ensures var name, size := EntryName(bytes[offset..offset + BLOCK]), EntrySize(bytes[offset..offset + BLOCK]);
            && (name.None? || size.None? ==> EntriesAt(bytes, offset) == None)
            && (name.Some? && size.Some? ==>
                  && Blocked(size.value) >= 0
                  && Behind(found, NamesOf(EntriesAt(bytes, offset)))
                     == Behind(found + [name.value], NamesOf(EntriesAt(bytes, offset + BLOCK + Blocked(size.value)))))
  {
    hide *;
    var here := bytes[offset..];
    EntryHere(bytes, offset);
    EntriesUnfold(here);
    NothingCut(bytes, offset);
    var name, size := EntryName(here[..BLOCK]), EntrySize(here[..BLOCK]);
    if name.Some? && size.Some? {
      var step := BLOCK + Blocked(size.value);
      SameTail(bytes, offset, step);
      NamesCons(File(name.value, here[BLOCK..Min(BLOCK + size.value, |here|)]), EntriesAt(here, step), found);
    }
  }

  lemma EntryHere(bytes: Bytes, offset: nat)
    requires offset + BLOCK <= |bytes| && !AllZero(bytes[offset..offset + BLOCK])
    ensures |bytes[offset..]| >= BLOCK && AtEntry(bytes[offset..]) && bytes[offset..][..BLOCK] == bytes[offset..offset + BLOCK]
  {
    assert bytes[offset..][..BLOCK] == bytes[offset..offset + BLOCK];
    hide AllZero;
  }

  lemma NothingCut(bytes: Bytes, offset: nat)
    requires offset <= |bytes|
    ensures EntriesAt(bytes, offset) == Entries(bytes[offset..])
  {
    hide Entries;
  }

  lemma SameTail(bytes: Bytes, offset: nat, step: nat)
    requires offset <= |bytes|
    ensures EntriesAt(bytes[offset..], step) == EntriesAt(bytes, offset + step)
  {
    var here := bytes[offset..];
    assert here[Min(step, |here|)..] == bytes[Min(offset + step, |bytes|)..];
    hide Entries;
  }

  lemma NamesCons(f: File, rest: Option<seq<File>>, found: seq<string>)
    ensures Behind(found, NamesOf(if rest.None? then None else Some([f] + rest.value)))
            == Behind(found + [f.path], NamesOf(rest))
  {
    if rest.Some? {
      assert found + Names([f] + rest.value) == (found + [f.path]) + Names(rest.value);
    }
  }

  lemma NamesEnd(bytes: Bytes, offset: nat, found: seq<string>)
    requires offset + BLOCK > |bytes| || AllZero(bytes[offset..offset + BLOCK])
    ensures Behind(found, NamesOf(EntriesAt(bytes, offset))) == Some(found)
  {
    var here := bytes[Min(offset, |bytes|)..];
    if BLOCK <= |here| { assert here[..BLOCK] == bytes[offset..offset + BLOCK]; }
    assert Entries(here) == Some([]);
    hide Entries;
    assert found + Names([]) == found;
  }
}
