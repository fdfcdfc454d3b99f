/** The bundle format: the ustar layout of every header, its checksum, whole blocks throughout, and
    an archive that reads back as the files it was written from. */
module TarLaws {
  import opened Wrappers
  import opened Collections
  import opened Text
  import opened Utf8
  import opened Tar

  // ---- header layout ----

  lemma SpliceSlice(s: Bytes, at: nat, data: Bytes, lo: nat, hi: nat)
    requires at + |data| <= |s| && lo <= hi <= |s|
    ensures hi <= at || at + |data| <= lo ==> Splice(s, at, data)[lo..hi] == s[lo..hi]
    ensures lo == at && hi == at + |data| ==> Splice(s, at, data)[lo..hi] == data
  {
    var r := Splice(s, at, data);
    if hi <= at || at + |data| <= lo {
      forall i | lo <= i < hi ensures r[i] == s[i] {}
    }
  }

  lemma FrontField(path: string, size: Bytes, at: nat, data: Bytes)
    requires UstarPath(path) && |size| == 12
    requires || (at == 0 && data == ToUtf8(path))
             || (at == |ToUtf8(path)| && data == Fill(100 - |ToUtf8(path)|, 0))
             || (at == 100 && data == Fill(4, 48) + [54, 52, 52, 0])
             || (at in {108, 116} && data == Fill(7, 48) + [0])
             || (at == 124 && data == size)
             || (at == 136 && data == Fill(11, 48) + [0])
             || (at >= 148 && at + |data| <= BLOCK && data == Fill(|data|, 0))
    ensures Front(path, size)[at..at + |data|] == data
  {
    hide Splice;
    var hi := at + |data|;
    var zeros, name := Fill(BLOCK, 0), ToUtf8(path);
    var mode, zero := Fill(4, 48) + [54, 52, 52, 0], Fill(7, 48) + [0];
    var h0 := Splice(zeros, 0, name);
    SpliceSlice(zeros, 0, name, at, hi);
    var h1 := Splice(h0, 100, mode);
    SpliceSlice(h0, 100, mode, at, hi);
    var h2 := Splice(h1, 108, zero);
    SpliceSlice(h1, 108, zero, at, hi);
    var h3 := Splice(h2, 116, zero);
    SpliceSlice(h2, 116, zero, at, hi);
    var h4 := Splice(h3, 124, size);
    SpliceSlice(h3, 124, size, at, hi);
    SpliceSlice(h4, 136, Fill(11, 48) + [0], at, hi);
  }

  /** Everything outside the fields that the rest of the header fills. */
  lemma FrontKept(path: string, size: Bytes, at: nat, hi: nat)
    requires UstarPath(path) && |size| == 12 && at <= hi <= BLOCK
    requires hi <= 148 || 157 <= at <= hi <= 257 || 265 <= at
    ensures Unsigned(path, size)[at..hi] == Front(path, size)[at..hi]
  {
    hide Splice, Front;
    var h5 := Front(path, size);
    var h6 := Splice(h5, 148, Fill(8, 32));
    SpliceSlice(h5, 148, Fill(8, 32), at, hi);
    var h7 := Splice(h6, 156, [48]);
    SpliceSlice(h6, 156, [48], at, hi);
    var h8 := Splice(h7, 257, [117, 115, 116, 97, 114, 0]);
    SpliceSlice(h7, 257, [117, 115, 116, 97, 114, 0], at, hi);
    SpliceSlice(h8, 263, [48, 48], at, hi);
  }

  lemma BackField(path: string, size: Bytes, at: nat, data: Bytes)
    requires UstarPath(path) && |size| == 12
    requires || (at == 148 && data == Fill(8, 32))
             || (at == 156 && data == [48])
             || (at == 257 && data == [117, 115, 116, 97, 114, 0])
             || (at == 263 && data == [48, 48])
    ensures Unsigned(path, size)[at..at + |data|] == data
  {
    hide Splice, Front;
    var hi := at + |data|;
    var h5 := Front(path, size);
    var h6 := Splice(h5, 148, Fill(8, 32));
    SpliceSlice(h5, 148, Fill(8, 32), at, hi);
    var h7 := Splice(h6, 156, [48]);
    SpliceSlice(h6, 156, [48], at, hi);
    var h8 := Splice(h7, 257, [117, 115, 116, 97, 114, 0]);
    SpliceSlice(h7, 257, [117, 115, 116, 97, 114, 0], at, hi);
    SpliceSlice(h8, 263, [48, 48], at, hi);
  }

  lemma HeaderKeeps(path: string, size: Bytes, at: nat, hi: nat)
    requires UstarPath(path) && |size| == 12 && at <= hi <= BLOCK && (hi <= 148 || 156 <= at)
    ensures Header(path, size)[at..hi] == Unsigned(path, size)[at..hi]
  {
    HeaderIs(path, size);
    var u := Unsigned(path, size);
    hide Unsigned, Header, Splice, ChecksumText, Sum;
    SpliceSlice(u, 148, ChecksumText(Sum(u)), at, hi);
  }

  lemma FrontInHeader(path: string, size: Bytes, at: nat, data: Bytes)
    requires UstarPath(path) && |size| == 12 && at + |data| <= BLOCK
    requires at + |data| <= 148 || 157 <= at <= at + |data| <= 257 || 265 <= at
    requires Front(path, size)[at..at + |data|] == data
    ensures Header(path, size)[at..at + |data|] == data
  {
    hide *;
    HeaderKeeps(path, size, at, at + |data|);
    FrontKept(path, size, at, at + |data|);
  }

  lemma BackInHeader(path: string, size: Bytes, at: nat, data: Bytes)
    requires UstarPath(path) && |size| == 12 && 156 <= at <= at + |data| <= BLOCK
    requires Unsigned(path, size)[at..at + |data|] == data
    ensures Header(path, size)[at..at + |data|] == data
  {
    hide *;
    HeaderKeeps(path, size, at, at + |data|);
  }

  /** Section 'ustar Interchange Format' of the POSIX pax utility: every field at its offset. */
  lemma HeaderLayout(path: string, size: Bytes)
    requires UstarPath(path) && |size| == 12
    ensures var (h, n) := (Header(path, size), |ToUtf8(path)|);
            && h[..n] == ToUtf8(path) && h[n..100] == Fill(100 - n, 0)
            && h[100..108] == Fill(4, 48) + [54, 52, 52, 0]
            && h[108..116] == h[116..124] == Fill(7, 48) + [0]
            && h[124..136] == size && h[136..148] == Fill(11, 48) + [0]
            && h[156..157] == [48] && h[157..257] == Fill(100, 0)
            && h[257..263] == [117, 115, 116, 97, 114, 0] && h[263..265] == [48, 48] && h[265..512] == Fill(247, 0)
  {
    var n := |ToUtf8(path)|;
    hide Front, Unsigned, Header, ToUtf8, Fill;
    FrontField(path, size, 0, ToUtf8(path));
    FrontInHeader(path, size, 0, ToUtf8(path));
    FrontField(path, size, n, Fill(100 - n, 0));
    FrontInHeader(path, size, n, Fill(100 - n, 0));
    FrontField(path, size, 100, Fill(4, 48) + [54, 52, 52, 0]);
    FrontInHeader(path, size, 100, Fill(4, 48) + [54, 52, 52, 0]);
    FrontField(path, size, 108, Fill(7, 48) + [0]);
    FrontInHeader(path, size, 108, Fill(7, 48) + [0]);
    FrontField(path, size, 116, Fill(7, 48) + [0]);
    FrontInHeader(path, size, 116, Fill(7, 48) + [0]);
    FrontField(path, size, 124, size);
    FrontInHeader(path, size, 124, size);
    FrontField(path, size, 136, Fill(11, 48) + [0]);
    FrontInHeader(path, size, 136, Fill(11, 48) + [0]);
    FrontField(path, size, 157, Fill(100, 0));
    FrontInHeader(path, size, 157, Fill(100, 0));
    FrontField(path, size, 265, Fill(247, 0));
    FrontInHeader(path, size, 265, Fill(247, 0));
    BackField(path, size, 156, [48]);
    BackInHeader(path, size, 156, [48]);
    BackField(path, size, 257, [117, 115, 116, 97, 114, 0]);
    BackInHeader(path, size, 257, [117, 115, 116, 97, 114, 0]);
    BackField(path, size, 263, [48, 48]);
    BackInHeader(path, size, 263, [48, 48]);
  }

  // ---- octal fields read back ----

  /** Padded octal digits, as characters. */
  lemma OctalChars(n: nat, k: nat)
    ensures var s := Zeros(k) + Numeral(n, 8);
            s != "" && (forall i :: 0 <= i < |s| ==> '0' <= s[i] <= '7') && Trim(s) == s
  {
    var s := Zeros(k) + Numeral(n, 8);
    forall i | 0 <= i < |s| ensures '0' <= s[i] <= '7' { assert i >= k ==> s[i] == Numeral(n, 8)[i - k]; }
    hide Numeral;
    assert !IsWhitespace(s[0]) && !IsWhitespace(s[|s| - 1]);
  }

  lemma OctalParses(n: nat, k: nat)
    requires n <= USIZE_MAX
    ensures ParseOctal(Zeros(k) + Numeral(n, 8)) == Some(n)
  {
    var s := Zeros(k) + Numeral(n, 8);
    OctalChars(n, k);
    LeadingZeros(k, Numeral(n, 8), 8);
    NumeralRoundTrip(n, 8);
    hide Numeral, NumeralValue;
    assert !StartsWith(s, "+");
  }

  /** ... and as the bytes of a field. */
  lemma OctalBytes(n: nat, k: nat)
    requires n <= USIZE_MAX
    ensures var s := Zeros(k) + Numeral(n, 8);
            var b := ToUtf8(s);
            && |b| == |s| && (forall i :: 0 <= i < |b| ==> b[i] != 0)
            && FromUtf8(b) == Some(s) && Trim(s) == s && ParseOctal(s) == Some(n)
  {
    var s := Zeros(k) + Numeral(n, 8);
    OctalChars(n, k);
    OctalParses(n, k);
    Utf8RoundTrip(s);
    hide Numeral, NumeralValue, ParseOctal, Trim, FromUtf8;
    assert IsAscii(s);
    AsciiBytes(s);
  }

  /** The stored checksum is six octal digits, a NUL and a space; the digits give the sum of the
      header's bytes with the checksum field read as spaces. */
  lemma ChecksumRight(path: string, size: Bytes)
    requires UstarPath(path) && |size| == 12
    ensures var h := Header(path, size);
            var text := FromUtf8(h[148..154]);
            && text.Some? && ParseOctal(text.value) == Some(Sum(Splice(h, 148, Fill(8, 32))))
            && h[154..156] == [0, 32]
  {
    HeaderIs(path, size);
    BackField(path, size, 148, Fill(8, 32));
    hide *;
    var u := Unsigned(path, size);
    var sum := Sum(u);
    var field := ChecksumText(sum);
    ChecksumFits(u);
    SumBound(u);
    ChecksumIs(sum);
    var k := 6 - |Numeral(sum, 8)|;
    OctalBytes(sum, k);
    SpliceSlice(u, 148, field, 148, 156);
    var h, digits := Header(path, size), ToUtf8(Zeros(k) + Numeral(sum, 8));
    TwoParts(h, 148, 154, 156, digits, [0, 32]);
    SpliceBack(u, 148, field, Fill(8, 32));
  }

  lemma TwoParts(h: Bytes, lo: nat, mid: nat, hi: nat, a: Bytes, b: Bytes)
    requires lo <= mid <= hi <= |h| && h[lo..hi] == a + b && |a| == mid - lo
    ensures h[lo..mid] == a && h[mid..hi] == b
  {
    assert h[lo..mid] == h[lo..hi][..mid - lo] && h[mid..hi] == h[lo..hi][mid - lo..];
  }

  lemma ChecksumIs(sum: nat)
    requires |Numeral(sum, 8)| <= 6
    ensures ChecksumText(sum) == ToUtf8(Zeros(6 - |Numeral(sum, 8)|) + Numeral(sum, 8)) + [0, 32]
    ensures USIZE_MAX >= 255 * BLOCK
  {
    hide Numeral, ToUtf8;
  }

  lemma SpliceBack(s: Bytes, at: nat, data: Bytes, was: Bytes)
    requires at + |data| <= |s| && |was| == |data| && s[at..at + |data|] == was
    ensures Splice(Splice(s, at, data), at, was) == s
  {
    var r := Splice(Splice(s, at, data), at, was);
    forall i | 0 <= i < |s| ensures r[i] == s[i] {
      if at <= i < at + |was| { assert s[at..at + |data|][i - at] == was[i - at]; }
    }
  }

  lemma {:induction false} CStringStops(s: Bytes, rest: Bytes)
    requires forall i :: 0 <= i < |s| ==> s[i] != 0
    requires rest == [] || rest[0] == 0
    ensures CString(s + rest) == s
  {
    if s == [] {
      assert s + rest == rest;
    } else {
      assert (s + rest)[1..] == s[1..] + rest;
      CStringStops(s[1..], rest);
    }
  }

  lemma SizeReads(n: nat)
    requires Octal(n, 12).Some?
    ensures var text := FromUtf8(CString(Octal(n, 12).value));
            text.Some? && ParseOctal(Trim(text.value)) == Some(n)
  {
    SizeFits(n);
    hide *;
    OctalIs(n, 12);
    var s := Zeros(11 - |Numeral(n, 8)|) + Numeral(n, 8);
    OctalBytes(n, 11 - |Numeral(n, 8)|);
    CStringStops(ToUtf8(s), [0]);
  }

  lemma OctalIs(n: nat, width: nat)
    requires width > 0 && Octal(n, width).Some?
    ensures |Numeral(n, 8)| <= width - 1
    ensures Octal(n, width).value == ToUtf8(Zeros(width - 1 - |Numeral(n, 8)|) + Numeral(n, 8)) + [0]
  {
    hide Numeral, ToUtf8;
  }

  lemma SizeFits(n: nat)
    ensures Octal(n, 12).Some? <==> n < 8589934592
    ensures Octal(n, 12).Some? ==> n <= USIZE_MAX
  {
    DigitCount(n, 11);
    assert Power8(11) == 8589934592 by { assert Power8(3) == 512; assert Power8(6) == 262144; assert Power8(9) == 134217728; }
  }

  // ---- names ----

  /** A name up to its first NUL. */
  function Cut(path: string): string
  {
    if path == "" || path[0] == '\0' then "" else [path[0]] + Cut(path[1..])
  }

  predicate NulFree(path: string) { forall i :: 0 <= i < |path| ==> path[i] != '\0' }

  lemma {:induction false} CutIs(path: string)
    ensures Cut(path) == path <==> NulFree(path)
    ensures NulFree(Cut(path)) && Cut(path) <= path
    ensures |Cut(path)| < |path| ==> path[|Cut(path)|] == '\0'
  {
    if path != "" && path[0] != '\0' {
      CutIs(path[1..]);
      assert [path[0]] + path[1..] == path;
      if NulFree(path) {
        forall i | 0 <= i < |path[1..]| ensures path[1..][i] != '\0' { assert path[1..][i] == path[i + 1]; }
      }
      if NulFree(path[1..]) {
        forall i | 0 <= i < |path| ensures path[i] != '\0' { if i > 0 { assert path[i] == path[1..][i - 1]; } }
      }
    }
  }

  lemma NameReads(path: string)
    requires UstarPath(path)
    ensures FromUtf8(CString(ToUtf8(path) + Fill(100 - |ToUtf8(path)|, 0))) == Some(Cut(path))
  {
    Utf8RoundTrip(Cut(path));
    CutBytes(path);
    hide *;
    CutRegion(ToUtf8(path), Fill(100 - |ToUtf8(path)|, 0), ToUtf8(Cut(path)));
  }

  lemma CutRegion(name: Bytes, zeros: Bytes, cut: Bytes)
    requires cut <= name && (forall i :: 0 <= i < |cut| ==> cut[i] != 0)
    requires |cut| < |name| ==> name[|cut|] == 0
    requires AllZero(zeros)
    ensures CString(name + zeros) == cut
  {
    var rest := name[|cut|..] + zeros;
    assert name + zeros == cut + rest;
    CStringStops(cut, rest);
  }

  lemma CutBytes(path: string)
    requires UstarPath(path)
    ensures var (name, cut) := (ToUtf8(path), ToUtf8(Cut(path)));
            && cut <= name && (forall i :: 0 <= i < |cut| ==> cut[i] != 0)
            && (|cut| < |name| ==> name[|cut|] == 0)
            && AllZero(Fill(100 - |name|, 0))
  {
    CutIs(path);
    var cut := Cut(path);
    hide ToUtf8, Cut;
    AsciiBytes(path);
    forall i | 0 <= i < |cut| ensures cut[i] == path[i] && (cut[i] as int) < 128 {}
    AsciiBytes(cut);
  }

  // ---- the archive ----

  lemma PaddedSize(n: nat)
    ensures Blocked(n) == n + Padding(n) && (n + Padding(n)) % BLOCK == 0
  {
    var q, r := n / BLOCK, n % BLOCK;
    assert n == BLOCK * q + r;
    if r == 0 {
      assert (n + BLOCK - 1) / BLOCK == q;
    } else {
      assert (n + BLOCK - 1) / BLOCK == q + 1;
      assert Padding(n) == BLOCK - r;
    }
  }

  /** A file is written exactly when its path is ASCII of at most 100 bytes and its size has at most
      eleven octal digits. */
  predicate Writable(f: File) { UstarPath(f.path) && |f.data| < 8589934592 }

  lemma BlocksUnfold(files: seq<File>)
    requires files != []
    ensures var n := |files| - 1;
            && (Blocks(files).Ok? <==> Blocks(files[..n]).Ok? && Block(files[n]).Ok?)
            && (Blocks(files).Ok? ==> Blocks(files).value == Blocks(files[..n]).value + Block(files[n]).value)
  {
    hide Block;
  }

  lemma BlockSucceeds(f: File)
    ensures Block(f).Ok? <==> Writable(f)
  {
    SizeFits(|f.data|);
    hide Octal, UstarPath, Header;
  }

  lemma {:induction false} BlocksSucceed(files: seq<File>)
    ensures Blocks(files).Ok? <==> forall i :: 0 <= i < |files| ==> Writable(files[i])
  {
    hide *;
    if files == [] {
      NoBlocks(None);
    } else {
      var n := |files| - 1;
      BlocksSucceed(files[..n]);
      BlocksUnfold(files);
      BlockSucceeds(files[n]);
      assert forall i :: 0 <= i < n ==> files[..n][i] == files[i];
    }
  }

  lemma ArchiveSucceeds(files: seq<File>)
    ensures Archive(files).Ok? <==> forall i :: 0 <= i < |files| ==> Writable(files[i])
  {
    BlocksSucceed(files);
    hide Blocks, Writable;
  }

  lemma BlockOk(f: File)
    requires Block(f).Ok?
    ensures UstarPath(f.path) && Octal(|f.data|, 12).Some? && |Octal(|f.data|, 12).value| == 12
  {
    OctalWidth(|f.data|, 12);
    hide Octal, UstarPath;
  }

  lemma BlockShape(f: File)
    requires Block(f).Ok?
    ensures UstarPath(f.path) && Octal(|f.data|, 12).Some? && |Octal(|f.data|, 12).value| == 12
    ensures Block(f).value == Header(f.path, Octal(|f.data|, 12).value) + f.data + Fill(Padding(|f.data|), 0)
    ensures |Block(f).value| == BLOCK + Blocked(|f.data|) && |Block(f).value| % BLOCK == 0
  {
    OctalWidth(|f.data|, 12);
    PaddedSize(|f.data|);
  }

  lemma {:induction false} BlocksWhole(files: seq<File>)
    requires Blocks(files).Ok?
    ensures |Blocks(files).value| % BLOCK == 0
  {
    hide *;
    if files == [] {
      NoBlocks(None);
    } else {
      var n := |files| - 1;
      BlocksUnfold(files);
      BlocksWhole(files[..n]);
      BlockShape(files[n]);
      WholeSum(|Blocks(files[..n]).value|, |Block(files[n]).value|);
    }
  }

  lemma WholeSum(a: nat, b: nat)
    requires a % BLOCK == 0 && b % BLOCK == 0
    ensures (a + b) % BLOCK == 0
  {}

  /** Everything written comes in whole blocks. */
  lemma WholeBlocks(files: seq<File>)
    requires Archive(files).Ok?
    ensures |Archive(files).value| % BLOCK == 0
  {
    BlocksWhole(files);
    hide Blocks;
    WholeSum(|Blocks(files).value|, 1024);
  }

  lemma EntryOf(h: Bytes, region: Bytes, field: Bytes, name: string, n: nat)
    requires |h| == BLOCK && h[..100] == region && h[124..136] == field && h[156..157] == [48]
    requires FromUtf8(CString(region)) == Some(name)
    requires var text := FromUtf8(CString(field)); text.Some? && ParseOctal(Trim(text.value)) == Some(n)
    ensures EntryName(h) == Some(name) && EntrySize(h) == Some(n) && !AllZero(h)
  {
    hide FromUtf8, CString, ParseOctal, Trim;
    assert h[156] == h[156..157][0];
  }

  /** A header reads back as the name up to its first NUL and the size. */
  lemma HeaderReads(f: File)
    requires Block(f).Ok?
    ensures UstarPath(f.path) && |Octal(|f.data|, 12).value| == 12
    ensures var h := Header(f.path, Octal(|f.data|, 12).value);
            EntryName(h) == Some(Cut(f.path)) && EntrySize(h) == Some(|f.data|) && !AllZero(h)
  {
    hide *;
    BlockOk(f);
    var size := Octal(|f.data|, 12).value;
    NameAndSize(f.path, size);
    NameReads(f.path);
    SizeReads(|f.data|);
    EntryOf(Header(f.path, size), ToUtf8(f.path) + Fill(100 - |ToUtf8(f.path)|, 0), size, Cut(f.path), |f.data|);
  }

  lemma NameAndSize(path: string, size: Bytes)
    requires UstarPath(path) && |size| == 12
    ensures var (h, name) := (Header(path, size), ToUtf8(path));
            && |name| <= 100 && h[..100] == name + Fill(100 - |name|, 0)
            && h[124..136] == size && h[156..157] == [48]
  {
    hide Header, ToUtf8;
    HeaderLayout(path, size);
    var h, n := Header(path, size), |ToUtf8(path)|;
    assert h[..100] == h[..n] + h[n..100];
  }

  function CutFile(f: File): File { f.(path := Cut(f.path)) }

  function CutFiles(files: seq<File>): (r: seq<File>)
    ensures |r| == |files|
  {
    seq(|files|, i requires 0 <= i < |files| => CutFile(files[i]))
  }

  function Before(files: seq<File>, rest: Option<seq<File>>): Option<seq<File>>
  {
    if rest.None? then None else Some(files + rest.value)
  }

  lemma BlockReads(f: File, rest: Bytes)
    requires Block(f).Ok?
    ensures Entries(Block(f).value + rest) == Before([CutFile(f)], Entries(rest))
  {
    HeaderReads(f);
    BlockShape(f);
    hide *;
    var h, pad := Header(f.path, Octal(|f.data|, 12).value), Fill(Padding(|f.data|), 0);
    var bytes := Block(f).value + rest;
    BlockParts(h, f.data, pad, rest);
    PaddedSize(|f.data|);
    AtHeader(bytes, h);
    EntriesUnfold(bytes);
    RestIs(bytes, |Block(f).value|, rest);
    DataIs(h, f.data, pad + rest, f.path);
  }

  lemma BlockParts(h: Bytes, data: Bytes, pad: Bytes, rest: Bytes)
    requires |h| == BLOCK
    ensures var bytes := (h + data + pad) + rest;
            bytes == h + (data + (pad + rest)) && bytes[..BLOCK] == h
  {}

  lemma AtHeader(bytes: Bytes, h: Bytes)
    requires |bytes| >= BLOCK && bytes[..BLOCK] == h && !AllZero(h)
    ensures AtEntry(bytes)
  {}

  lemma RestIs(bytes: Bytes, n: nat, rest: Bytes)
    requires n <= |bytes| && bytes[n..] == rest
    ensures EntriesAt(bytes, n) == Entries(rest)
  {
    hide Entries;
  }

  lemma DataIs(h: Bytes, data: Bytes, after: Bytes, path: string)
    requires |h| == BLOCK
    ensures var bytes := h + (data + after);
            Min(BLOCK + |data|, |bytes|) == BLOCK + |data| && bytes[BLOCK..BLOCK + |data|] == data
    ensures CutFile(File(path, data)) == File(Cut(path), data)
    ensures forall files, rest :: Before(files, rest) == if rest.None? then None else Some(files + rest.value)
  {}

  lemma NoBlocks(rest: Option<seq<File>>)
    ensures Before([], rest) == rest && Blocks([]) == Ok([]) && 0 % BLOCK == 0 && CutFiles([]) == []
  {
    if rest.Some? { assert [] + rest.value == rest.value; }
  }

  lemma CutLast(files: seq<File>)
    requires files != []
    ensures var n := |files| - 1; CutFiles(files) == CutFiles(files[..n]) + [CutFile(files[n])]
  {
    hide Cut;
  }

  lemma BeforeTwice(a: seq<File>, f: File, rest: Option<seq<File>>)
    ensures Before(a, Before([f], rest)) == Before(a + [f], rest)
  {
    if rest.Some? { assert a + ([f] + rest.value) == (a + [f]) + rest.value; }
  }

  lemma {:induction false} BlocksRead(files: seq<File>, rest: Bytes)
    requires Blocks(files).Ok?
    ensures Entries(Blocks(files).value + rest) == Before(CutFiles(files), Entries(rest))
  {
    hide *;
    NoBlocks(Entries(rest));
    if files == [] {
      assert [] + rest == rest;
    } else {
      var n := |files| - 1;
      BlocksUnfold(files);
      CutLast(files);
      var (before, last) := (Blocks(files[..n]).value, Block(files[n]).value);
      BlocksRead(files[..n], last + rest);
      BlockReads(files[n], rest);
      assert (before + last) + rest == before + (last + rest);
      BeforeTwice(CutFiles(files[..n]), CutFile(files[n]), Entries(rest));
    }
  }

  lemma TrailerReads()
    ensures Entries(Fill(1024, 0)) == Some([])
  {
    assert AllZero(Fill(1024, 0)[..BLOCK]);
  }

  /** What was written reads back: every entry in order with its bytes, and its name up to the first
      NUL; so the whole list comes back exactly when no name has one. */
  lemma ArchiveReads(files: seq<File>)
    requires Archive(files).Ok?
    ensures Entries(Archive(files).value) == Some(CutFiles(files))
    ensures Entries(Archive(files).value) == Some(files) <==> forall i :: 0 <= i < |files| ==> NulFree(files[i].path)
  {
    BlocksRead(files, Fill(1024, 0));
    TrailerReads();
    assert CutFiles(files) + [] == CutFiles(files);
    hide Entries, Blocks, Cut, NulFree;
    forall i | 0 <= i < |files| ensures CutFiles(files)[i] == files[i] <==> NulFree(files[i].path) {
      CutIs(files[i].path);
    }
    if CutFiles(files) == files {
      forall i | 0 <= i < |files| ensures NulFree(files[i].path) { assert CutFiles(files)[i] == files[i]; }
    }
  }
}
