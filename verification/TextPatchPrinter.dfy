/** A writer of diff-match-patch text, and the proof that `dmp_unpatch` reads back what it
    writes: any hunks placed in source coordinates turn their source into their target. */
module TextPatchPrinter {
  import opened Wrappers
  import opened Text
  import opened Utf8
  import opened TextPatch
  import opened TextPatchLaws

  /** Characters the writer may leave unescaped; which ones is its own choice. */
  ghost predicate Spares(plain: char -> bool)
  {
    forall c :: plain(c) ==> (c as int) < 0x80 && c != '%' && c != '\n' && c != '\r'
  }

  function EscapeByte(b: byte): string { ['%', HEX_UPPER[b / 16], HEX_UPPER[b % 16]] }

  function EscapeBytes(b: seq<byte>): string
  {
    if b == [] then "" else EscapeByte(b[0]) + EscapeBytes(b[1..])
  }

  function Encode(text: string, plain: char -> bool): string
  {
    if text == "" then ""
    else (if plain(text[0]) then [text[0]] else EscapeBytes(EncodeChar(text[0]))) + Encode(text[1..], plain)
  }

  // ---- one line ----

  lemma EscapedByteRead(b: byte, rest: seq<byte>)
    ensures Unescape(ToUtf8(EscapeByte(b)) + rest) == Then([b], Unescape(rest))
  {
    HexUpperValue(b / 16);
    HexUpperValue(b % 16);
    var s := EscapeByte(b);
    var bytes := ['%' as int, HEX_UPPER[b / 16] as int, HEX_UPPER[b % 16] as int];
    ThreeAscii(s);
    assert (bytes + rest)[3..] == rest;
    assert EscapedByte(bytes[1], bytes[2]) == Some(b);
  }

  lemma ThreeAscii(s: string)
    requires |s| == 3 && forall i :: 0 <= i < 3 ==> (s[i] as int) < 0x80
    ensures ToUtf8(s) == [s[0] as int, s[1] as int, s[2] as int]
  {
    assert s[1..][1..] == s[2..] && s[2..][1..] == s[3..];
    assert ToUtf8(s[3..]) == [];
    assert ToUtf8(s[2..]) == [s[2] as int];
    assert ToUtf8(s[1..]) == [s[1] as int] + [s[2] as int];
  }

  lemma {:induction false} EscapedBytesRead(b: seq<byte>, tail: string)
    ensures Unescape(ToUtf8(EscapeBytes(b) + tail)) == Then(b, Unescape(ToUtf8(tail)))
  {
    if b == [] {
      assert "" + tail == tail;
      ThenNothing(Unescape(ToUtf8(tail)));
    } else {
      var rest := EscapeBytes(b[1..]) + tail;
      assert EscapeBytes(b) + tail == EscapeByte(b[0]) + rest;
      ToUtf8Append(EscapeByte(b[0]), rest);
      EscapedByteRead(b[0], ToUtf8(rest));
      EscapedBytesRead(b[1..], tail);
      ThenJoin([b[0]], b[1..], Unescape(ToUtf8(tail)));
      assert [b[0]] + b[1..] == b;
    }
  }

  lemma ThenJoin(a: seq<byte>, b: seq<byte>, rest: Option<seq<byte>>)
    ensures Then(a, Then(b, rest)) == Then(a + b, rest)
  {
    if rest.Some? { assert a + (b + rest.value) == (a + b) + rest.value; }
  }

  lemma {:induction false} EncodedRead(text: string, plain: char -> bool)
    requires Spares(plain)
    ensures Unescape(ToUtf8(Encode(text, plain))) == Some(ToUtf8(text))
  {
    if text != "" {
      var c, tail := text[0], Encode(text[1..], plain);
      EncodedRead(text[1..], plain);
      if plain(c) {
        assert ToUtf8([c] + tail) == [c as int] + ToUtf8(tail) by { ToUtf8Append([c], tail); OneChar(c); }
        assert ([c as int] + ToUtf8(tail))[1..] == ToUtf8(tail);
        OneChar(c);
      } else {
        EscapedBytesRead(EncodeChar(c), tail);
      }
    }
  }

  lemma OneChar(c: char)
    ensures ToUtf8([c]) == EncodeChar(c)
  {
    assert [c][1..] == [];
    assert EncodeChar(c) + [] == EncodeChar(c);
  }

  /** A line decodes to a text exactly when its bytes with the escapes undone are that text's UTF-8. */
  lemma DecodeMeans(line: string, text: string)
    ensures Decode(line) == Ok(text) <==> Unescape(ToUtf8(line)) == Some(ToUtf8(text))
  {
    hide Unescape, ToUtf8, FromUtf8;
    var b := Unescape(ToUtf8(line));
    if b.Some? { Utf8Strict(b.value, text); }
  }

  lemma DecodeEncode(text: string, plain: char -> bool)
    requires Spares(plain)
    ensures Decode(Encode(text, plain)) == Ok(text)
  {
    EncodedRead(text, plain);
    DecodeMeans(Encode(text, plain), text);
  }

  function PrintEdit(e: Edit, plain: char -> bool): string
  {
    (match e case Keep(_) => " " case Drop(_) => "-" case Put(_) => "+") + Encode(e.text, plain)
  }

  lemma EditRead(e: Edit, plain: char -> bool)
    requires Spares(plain)
    ensures ParseEdit(PrintEdit(e, plain)) == Ok(e) && !StartsWith(PrintEdit(e, plain), "@@")
  {
    DecodeEncode(e.text, plain);
    assert PrintEdit(e, plain)[1..] == Encode(e.text, plain);
  }

  // ---- the header ----

  /** `start,length`, the length left out when it is 1, the start 1-based unless the length is 0. */
  function Coords(at: nat, len: nat): string
  {
    if len == 0 then Numeral(at, 10) + ",0"
    else if len == 1 then Numeral(at + 1, 10)
    else Numeral(at + 1, 10) + "," + Numeral(len, 10)
  }

  function PrintHeader(at: nat, len: nat, plus: string): string
  {
    "@@ -" + (Coords(at, len) + (" +" + plus))
  }

  lemma {:induction false} SplitOnceAt(a: string, sep: string, b: string)
    requires sep != "" && !Has(a, sep[0])
    ensures SplitOnce(a + (sep + b), sep) == Some((a, b))
  {
    if a == "" {
      assert a + (sep + b) == sep + b;
      assert (sep + b)[|sep|..] == b;
      assert sep <= sep + b;
    } else {
      var s := a + (sep + b);
      assert s[0] == a[0] && a[0] != sep[0];
      assert !(sep <= s);
      assert s[1..] == a[1..] + (sep + b);
      assert forall i :: 0 <= i < |a[1..]| ==> a[1..][i] == a[i + 1];
      SplitOnceAt(a[1..], sep, b);
      assert [a[0]] + a[1..] == a;
    }
  }

  lemma {:induction false} SplitOnceNone(a: string, sep: string)
    requires sep != "" && !Has(a, sep[0])
    ensures SplitOnce(a, sep) == None
  {
    if a != "" {
      assert a[0] != sep[0];
      assert forall i :: 0 <= i < |a[1..]| ==> a[1..][i] == a[i + 1];
      SplitOnceNone(a[1..], sep);
    }
  }

  /** The coordinates alone, as `ParseHeader` reads them. */
  function ReadCoords(coords: string): Result<nat, PatchError>
  {
    match SplitOnce(coords, ",")
    case None =>
      (match ParseUsize(coords)
       case None => Err(BadOffset)
       case Some(a) => Ok(HunkAt(a, 1)))
    case Some((start, len)) =>
      var a, b := ParseUsize(start), ParseUsize(len);
      if a.None? || b.None? then Err(BadOffset) else Ok(HunkAt(a.value, b.value))
  }

  lemma CoordsRead(at: nat, len: nat)
    requires at < USIZE_MAX && len <= USIZE_MAX
    ensures ReadCoords(Coords(at, len)) == Ok(at)
  {
    hide Numeral, SplitOnce, ParseUsize;
    if len == 0 {
      NumeralRead(at);
      NumeralRead(0);
      ZeroNumeral();
      NumeralHasNo(at, ',');
      SplitOnceAt(Numeral(at, 10), ",", "0");
      assert Coords(at, 0) == Numeral(at, 10) + ("," + "0");
    } else if len == 1 {
      NumeralRead(at + 1);
      NumeralHasNo(at + 1, ',');
      SplitOnceNone(Numeral(at + 1, 10), ",");
    } else {
      NumeralRead(at + 1);
      NumeralRead(len);
      NumeralHasNo(at + 1, ',');
      SplitOnceAt(Numeral(at + 1, 10), ",", Numeral(len, 10));
      assert Coords(at, len) == Numeral(at + 1, 10) + ("," + Numeral(len, 10));
    }
  }

  lemma ZeroNumeral()
    ensures Numeral(0, 10) == "0"
  {}

  lemma NumeralHasNo(n: nat, c: char)
    requires !IsDigit(c)
    ensures !Has(Numeral(n, 10), c)
  {}

  lemma CoordsHasNo(at: nat, len: nat, c: char)
    requires !IsDigit(c) && c != ','
    ensures !Has(Coords(at, len), c)
  {}

  lemma HeaderRead(at: nat, len: nat, plus: string)
    requires at < USIZE_MAX && len <= USIZE_MAX
    ensures ParseHeader(PrintHeader(at, len, plus)) == Ok(at)
    ensures StartsWith(PrintHeader(at, len, plus), "@@")
  {
    hide Coords, SplitOnce, ParseUsize;
    var line := PrintHeader(at, len, plus);
    assert line[..4] == "@@ -" && line[4..] == Coords(at, len) + (" +" + plus);
    CoordsHasNo(at, len, ' ');
    SplitOnceAt(Coords(at, len), " +", plus);
    CoordsRead(at, len);
    assert line[..2] == "@@";
  }

  // ---- the whole patch ----

  function PrintEdits(edits: seq<Edit>, plain: char -> bool): (lines: seq<string>)
    ensures |lines| == |edits|
  {
    if edits == [] then [] else [PrintEdit(edits[0], plain)] + PrintEdits(edits[1..], plain)
  }

  /** `plus` gives the target side of a header, which the kernel ignores. */
  function PrintLines(hunks: seq<Hunk>, plus: Hunk -> string, plain: char -> bool): seq<string>
  {
    if hunks == [] then []
    else
      [PrintHeader(hunks[0].at, |OldText(hunks[0].edits)|, plus(hunks[0]))]
      + (PrintEdits(hunks[0].edits, plain) + PrintLines(hunks[1..], plus, plain))
  }

  function Terminate(lines: seq<string>): string
  {
    if lines == [] then "" else lines[0] + ("\n" + Terminate(lines[1..]))
  }

  function PrintPatch(hunks: seq<Hunk>, plus: Hunk -> string, plain: char -> bool): string
  {
    Terminate(PrintLines(hunks, plus, plain))
  }

  predicate OneLine(s: string) { !Has(s, '\n') && !Has(s, '\r') }

  lemma {:induction false} LinesOfTerminated(lines: seq<string>)
    requires forall l <- lines :: OneLine(l)
    ensures Lines(Terminate(lines)) == lines
  {
    if lines != [] {
      var l, rest := lines[0], Terminate(lines[1..]);
      assert l in lines;
      assert !Has(l, '\n') && !Has(l, '\r');
      var s := l + ("\n" + rest);
      IndexOfAt(l, '\n', rest);
      assert s[..|l|] == l && s[|l| + 1..] == rest;
      assert StripCr(l) == l;
      LinesOfTerminated(lines[1..]);
      assert [l] + lines[1..] == lines;
    }
  }

  lemma {:induction false} IndexOfAt(a: string, c: char, b: string)
    requires !Has(a, c)
    ensures IndexOf(a + ([c] + b), c) == |a|
  {
    var s := a + ([c] + b);
    if a == "" {
      assert s[0] == c;
    } else {
      assert s[0] == a[0] && a[0] != c;
      assert s[1..] == a[1..] + ([c] + b);
      assert forall i :: 0 <= i < |a[1..]| ==> a[1..][i] == a[i + 1];
      IndexOfAt(a[1..], c, b);
    }
  }

  lemma OneLineAppend(a: string, b: string)
    ensures OneLine(a + b) <==> OneLine(a) && OneLine(b)
  {
    HasAppend(a, b, '\n');
    HasAppend(a, b, '\r');
  }

  lemma {:induction false} EscapesOneLine(b: seq<byte>)
    ensures OneLine(EscapeBytes(b))
  {
    if b != [] {
      EscapesOneLine(b[1..]);
      assert OneLine(EscapeByte(b[0]));
      OneLineAppend(EscapeByte(b[0]), EscapeBytes(b[1..]));
    }
  }

  lemma {:induction false} EncodedOneLine(text: string, plain: char -> bool)
    requires Spares(plain)
    ensures OneLine(Encode(text, plain))
  {
    if text != "" {
      var head := if plain(text[0]) then [text[0]] else EscapeBytes(EncodeChar(text[0]));
      EncodedOneLine(text[1..], plain);
      EscapesOneLine(EncodeChar(text[0]));
      assert OneLine(head);
      OneLineAppend(head, Encode(text[1..], plain));
    }
  }

  lemma HeaderOneLine(at: nat, len: nat, plus: string)
    requires OneLine(plus)
    ensures OneLine(PrintHeader(at, len, plus))
  {
    hide Coords, OneLine;
    CoordsHasNo(at, len, '\n');
    CoordsHasNo(at, len, '\r');
    assert OneLine(Coords(at, len)) && OneLine("@@ -") && OneLine(" +") by { MarksOneLine(at, len); }
    OneLineAppend(" +", plus);
    OneLineAppend(Coords(at, len), " +" + plus);
    OneLineAppend("@@ -", Coords(at, len) + (" +" + plus));
  }

  lemma MarksOneLine(at: nat, len: nat)
    ensures OneLine(Coords(at, len)) && OneLine("@@ -") && OneLine(" +")
  {
    CoordsHasNo(at, len, '\n');
    CoordsHasNo(at, len, '\r');
  }

  lemma {:induction false} EditsOneLine(edits: seq<Edit>, plain: char -> bool)
    requires Spares(plain)
    ensures forall l <- PrintEdits(edits, plain) :: OneLine(l)
  {
    if edits != [] {
      EncodedOneLine(edits[0].text, plain);
      OneLineAppend(match edits[0] case Keep(_) => " " case Drop(_) => "-" case Put(_) => "+", Encode(edits[0].text, plain));
      EditsOneLine(edits[1..], plain);
    }
  }

  lemma {:induction false} LinesOneLine(hunks: seq<Hunk>, plus: Hunk -> string, plain: char -> bool)
    requires Spares(plain) && forall h :: OneLine(plus(h))
    ensures forall l <- PrintLines(hunks, plus, plain) :: OneLine(l)
  {
    hide PrintHeader, OneLine, PrintEdits;
    if hunks != [] {
      HeaderOneLine(hunks[0].at, |OldText(hunks[0].edits)|, plus(hunks[0]));
      EditsOneLine(hunks[0].edits, plain);
      LinesOneLine(hunks[1..], plus, plain);
    }
  }

  lemma {:induction false} EditsRead(edits: seq<Edit>, lines: seq<string>, plain: char -> bool)
    requires Spares(plain) && ParseLines(lines).Some?
    ensures ParseLines(PrintEdits(edits, plain) + lines)
            == Some(Parsed(edits + ParseLines(lines).value.edits, ParseLines(lines).value.hunks))
  {
    hide *;
    PrintEditsUnfold(edits, plain);
    var p := ParseLines(lines).value;
    if edits == [] {
      assert PrintEdits(edits, plain) + lines == lines;
      assert edits + p.edits == p.edits;
    } else {
      EditRead(edits[0], plain);
      EditsRead(edits[1..], lines, plain);
      LineRead(PrintEdit(edits[0], plain), PrintEdits(edits[1..], plain) + lines, edits[0]);
      assert PrintEdits(edits, plain) + lines == [PrintEdit(edits[0], plain)] + (PrintEdits(edits[1..], plain) + lines);
      assert [edits[0]] + (edits[1..] + p.edits) == edits + p.edits;
    }
  }

  lemma PrintEditsUnfold(edits: seq<Edit>, plain: char -> bool)
    ensures edits == [] ==> PrintEdits(edits, plain) == []
    ensures edits != [] ==> PrintEdits(edits, plain) == [PrintEdit(edits[0], plain)] + PrintEdits(edits[1..], plain)
  {
    hide PrintEdit;
  }

  lemma LineRead(line: string, rest: seq<string>, e: Edit)
    requires ParseEdit(line) == Ok(e) && !StartsWith(line, "@@") && ParseLines(rest).Some?
    ensures ParseLines([line] + rest) == Some(Parsed([e] + ParseLines(rest).value.edits, ParseLines(rest).value.hunks))
  {
    hide ParseEdit, StartsWith, ParseHeader;
    assert ([line] + rest)[1..] == rest;
  }

  /** Numbers a header can carry. */
  predicate Printable(hunks: seq<Hunk>)
  {
    forall h <- hunks :: h.at < USIZE_MAX && |OldText(h.edits)| <= USIZE_MAX
  }

  lemma {:induction false} HunksRead(hunks: seq<Hunk>, plus: Hunk -> string, plain: char -> bool)
    requires Spares(plain) && Printable(hunks)
    ensures ParseLines(PrintLines(hunks, plus, plain)) == Some(Parsed([], hunks))
  {
    hide PrintHeader, ParseHeader, PrintEdits, OldText;
    if hunks != [] {
      var h := hunks[0];
      var rest := PrintLines(hunks[1..], plus, plain);
      HunksRead(hunks[1..], plus, plain);
      EditsRead(h.edits, rest, plain);
      HeaderRead(h.at, |OldText(h.edits)|, plus(h));
      var lines := PrintLines(hunks, plus, plain);
      assert lines[1..] == PrintEdits(h.edits, plain) + rest;
      assert h.edits + [] == h.edits;
      assert [h] + hunks[1..] == hunks;
    }
  }

  /** Every list of hunks reads back from its printed text. */
  lemma ParsePrinted(hunks: seq<Hunk>, plus: Hunk -> string, plain: char -> bool)
    requires Spares(plain) && Printable(hunks) && forall h :: OneLine(plus(h))
    ensures ParsePatch(PrintPatch(hunks, plus, plain)) == Some(hunks)
  {
    hide PrintLines, ParseLines, Lines, Terminate;
    LinesOneLine(hunks, plus, plain);
    LinesOfTerminated(PrintLines(hunks, plus, plain));
    HunksRead(hunks, plus, plain);
  }

  lemma {:induction false} PlacedPrintable(hunks: seq<Hunk>, runs: seq<string>, base: nat)
    requires |runs| == |hunks| + 1 && Placed(hunks, runs, base) && base + |Before(hunks, runs)| < USIZE_MAX
    ensures Printable(hunks)
  {
    if hunks != [] {
      PlacedPrintable(hunks[1..], runs[1..], hunks[0].at + |OldText(hunks[0].edits)|);
      forall h <- hunks ensures h.at < USIZE_MAX && |OldText(h.edits)| <= USIZE_MAX {
        assert h == hunks[0] || h in hunks[1..];
      }
    }
  }

  /** Hunks placed in source coordinates, printed, turn the text they describe into their target. */
  lemma PrintedPatchApplies(hunks: seq<Hunk>, runs: seq<string>, plus: Hunk -> string, plain: char -> bool)
    requires |runs| == |hunks| + 1 && Placed(hunks, runs, 0) && |Before(hunks, runs)| < USIZE_MAX
    requires Spares(plain) && forall h :: OneLine(plus(h))
    ensures Unpatch(Before(hunks, runs), PrintPatch(hunks, plus, plain)) == Ok(After(hunks, runs))
  {
    hide Unpatch, ParsePatch, PrintPatch, Before, After, Placed;
    PlacedPrintable(hunks, runs, 0);
    ParsePrinted(hunks, plus, plain);
    UnpatchMeans(Before(hunks, runs), PrintPatch(hunks, plus, plain), After(hunks, runs));
    assert Rewrites(Before(hunks, runs), hunks, runs, After(hunks, runs));
  }
}
