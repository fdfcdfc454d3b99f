/** What a successful `dmp_unpatch` means, stated without its cursor: the patch text reads as
    a list of hunks, the source is runs and hunk old texts in turn, the result is the same runs
    with the hunks' new texts in their place. And the converse, for patches printed by hand. */
module TextPatchLaws {
  import opened Wrappers
  import opened Collections
  import opened Text
  import opened TextPatch

  /** A hunk: where it starts in the source, and its lines. */
  datatype Hunk = Hunk(at: nat, edits: seq<Edit>)

  datatype Parsed = Parsed(edits: seq<Edit>, hunks: seq<Hunk>)

  /** Leading lines that belong to an already open hunk, then whole hunks. */
  function ParseLines(lines: seq<string>): Option<Parsed>
  {
    if lines == [] then Some(Parsed([], []))
    else
      match ParseLines(lines[1..])
      case None => None
      case Some(rest) =>
        if StartsWith(lines[0], "@@") then
          var h := ParseHeader(lines[0]);
          if h.Err? then None else Some(Parsed([], [Hunk(h.value, rest.edits)] + rest.hunks))
        else
          var e := ParseEdit(lines[0]);
          if e.Err? then None else Some(Parsed([e.value] + rest.edits, rest.hunks))
  }

  /** The hunks a patch text spells, whatever source it is for. */
  function ParsePatch(patch: string): Option<seq<Hunk>>
  {
    match ParseLines(Lines(patch))
    case None => None
    case Some(p) => if p.edits == [] then Some(p.hunks) else None
  }

  /** Context and deleted text. */
  function OldText(edits: seq<Edit>): string
  {
    if edits == [] then ""
    else OldPart(edits[0]) + OldText(edits[1..])
  }

  /** Context and inserted text. */
  function NewText(edits: seq<Edit>): string
  {
    if edits == [] then ""
    else NewPart(edits[0]) + NewText(edits[1..])
  }

  /** Runs and hunk texts in turn, ending with a run. */
  function Before(hunks: seq<Hunk>, runs: seq<string>): string
    requires |runs| == |hunks| + 1
  {
    if hunks == [] then runs[0]
    else runs[0] + (OldText(hunks[0].edits) + Before(hunks[1..], runs[1..]))
  }

  function After(hunks: seq<Hunk>, runs: seq<string>): string
    requires |runs| == |hunks| + 1
  {
    if hunks == [] then runs[0]
    else runs[0] + (NewText(hunks[0].edits) + After(hunks[1..], runs[1..]))
  }

  /** Every offset counts source characters before its hunk. */
  predicate Placed(hunks: seq<Hunk>, runs: seq<string>, base: nat)
    requires |runs| == |hunks| + 1
  {
    hunks == []
    || (hunks[0].at == base + |runs[0]|
        && Placed(hunks[1..], runs[1..], hunks[0].at + |OldText(hunks[0].edits)|))
  }

  /** From cursor `c`, the rest of the source is `p`'s texts around `runs`, and finishing gives `final`. */
  ghost predicate Fits(source: string, p: Parsed, c: Cursor, final: string, runs: seq<string>)
  {
    && c.pos <= |source| && |runs| == |p.hunks| + 1
    && source[c.pos..] == OldText(p.edits) + Before(p.hunks, runs)
    && Placed(p.hunks, runs, c.pos + |OldText(p.edits)|)
    && final == c.out + (NewText(p.edits) + After(p.hunks, runs))
  }

  lemma SliceJoin(s: string, i: nat, j: nat)
    requires i <= j <= |s|
    ensures s[i..] == s[i..j] + s[j..]
  {}

  lemma PrefixAt(s: string, i: nat, a: string, b: string)
    requires i <= |s|
    ensures s[i..] == a + b <==> i + |a| <= |s| && s[i..i + |a|] == a && s[i + |a|..] == b
  {
    if s[i..] == a + b {
      assert s[i..][..|a|] == a && s[i..][|a|..] == b;
    } else if i + |a| <= |s| {
      SliceJoin(s, i, i + |a|);
    }
  }

  lemma NoText()
    ensures OldText([]) == "" && NewText([]) == ""
  {}

  lemma ConsText(e: Edit, edits: seq<Edit>)
    ensures OldText([e] + edits) == OldPart(e) + OldText(edits)
    ensures NewText([e] + edits) == NewPart(e) + NewText(edits)
  {
    assert ([e] + edits)[1..] == edits;
  }

  lemma UnfoldHunk(h: Hunk, hunks: seq<Hunk>, run: string, runs: seq<string>, base: nat)
    requires |runs| == |hunks| + 1
    ensures Before([h] + hunks, [run] + runs) == run + (OldText(h.edits) + Before(hunks, runs))
    ensures After([h] + hunks, [run] + runs) == run + (NewText(h.edits) + After(hunks, runs))
    ensures Placed([h] + hunks, [run] + runs, base) <==>
            h.at == base + |run| && Placed(hunks, runs, h.at + |OldText(h.edits)|)
  {
    assert ([h] + hunks)[1..] == hunks && ([run] + runs)[1..] == runs;
  }

  /** A header turns the text up to its offset into a run. */
  lemma FitsHunk(source: string, p: Parsed, at: nat, c: Cursor, final: string, run: string, runs: seq<string>)
    requires c.pos <= |source|
    ensures Fits(source, Parsed([], [Hunk(at, p.edits)] + p.hunks), c, final, [run] + runs) <==>
            && c.pos <= at <= |source| && run == source[c.pos..at]
            && Fits(source, p, Cursor(at, c.out + run), final, runs)
  {
    hide OldText, NewText, Before, After, Placed;
    if |runs| == |p.hunks| + 1 {
      UnfoldHunk(Hunk(at, p.edits), p.hunks, run, runs, c.pos);
      NoText();
      Cat(Before([Hunk(at, p.edits)] + p.hunks, [run] + runs), "", "");
      Cat(After([Hunk(at, p.edits)] + p.hunks, [run] + runs), "", "");
      PrefixAt(source, c.pos, run, OldText(p.edits) + Before(p.hunks, runs));
      Cat(c.out, run, NewText(p.edits) + After(p.hunks, runs));
    }
  }

  lemma EditApplies(source: string, c: Cursor, e: Edit)
    requires c.pos <= |source|
    ensures ApplyEdit(source, c, e).Ok? <==>
            c.pos + |OldPart(e)| <= |source| && source[c.pos..c.pos + |OldPart(e)|] == OldPart(e)
    ensures ApplyEdit(source, c, e).Ok? ==>
              ApplyEdit(source, c, e).value == Cursor(c.pos + |OldPart(e)|, c.out + NewPart(e))
  {
    assert c.out + "" == c.out;
  }

  /** A hunk line moves its text from the rest of the source to the rest of the hunk. */
  lemma FitsEdit(source: string, p: Parsed, e: Edit, c: Cursor, final: string, runs: seq<string>)
    requires c.pos <= |source|
    ensures Fits(source, Parsed([e] + p.edits, p.hunks), c, final, runs) <==>
            ApplyEdit(source, c, e).Ok? && Fits(source, p, ApplyEdit(source, c, e).value, final, runs)
  {
    hide OldText, NewText, Before, After, Placed, ApplyEdit;
    EditApplies(source, c, e);
    ConsText(e, p.edits);
    if |runs| == |p.hunks| + 1 {
      Cat(OldPart(e), OldText(p.edits), Before(p.hunks, runs));
      Cat(NewPart(e), NewText(p.edits), After(p.hunks, runs));
      Cat(c.out, NewPart(e), NewText(p.edits) + After(p.hunks, runs));
      PrefixAt(source, c.pos, OldPart(e), OldText(p.edits) + Before(p.hunks, runs));
    }
  }

  lemma FitsNothing(source: string, c: Cursor, final: string, runs: seq<string>)
    requires c.pos <= |source|
    ensures Fits(source, Parsed([], []), c, final, runs) <==> runs == [source[c.pos..]] && final == c.out + source[c.pos..]
  {
    NoText();
    if |runs| == 1 {
      Cat(runs[0], "", "");
      assert runs == [runs[0]];
    }
  }

  // ---- the interpreter against the reading ----

  function Finish(source: string, r: Result<Cursor, PatchError>): Option<string>
    requires r.Ok? ==> r.value.pos <= |source|
  {
    if r.Err? then None else Some(r.value.out + source[r.value.pos..])
  }

  lemma HeaderStartsWithAt(line: string)
    ensures ParseHeader(line).Ok? ==> StartsWith(line, "@@")
  {
    if ParseHeader(line).Ok? { assert line[..4] == "@@ -"; }
  }

  /** Running the lines succeeds exactly when they read as hunks that fit, and then ends the same way. */
  lemma {:induction false} RunMeans(source: string, lines: seq<string>, c: Cursor, open: bool, final: string)
    requires c.pos <= |source|
    ensures Finish(source, Run(source, lines, c, open)) == Some(final) <==>
            ParseLines(lines).Some? && (open || ParseLines(lines).value.edits == [])
            && exists runs :: Fits(source, ParseLines(lines).value, c, final, runs)
    decreases |lines|
  {
    hide Fits, ParseHeader, ParseEdit, ApplyEdit;
    if lines == [] {
      forall runs ensures Fits(source, Parsed([], []), c, final, runs) <==> runs == [source[c.pos..]] && final == c.out + source[c.pos..] {
        FitsNothing(source, c, final, runs);
      }
      FitsNothing(source, c, final, [source[c.pos..]]);
    } else if StartsWith(lines[0], "@@") {
      RunMeansHeader(source, lines, c, open, final);
    } else {
      HeaderStartsWithAt(lines[0]);
      if open { RunMeansEdit(source, lines, c, final); }
    }
  }

  lemma {:induction false} RunMeansHeader(source: string, lines: seq<string>, c: Cursor, open: bool, final: string)
    requires c.pos <= |source| && lines != [] && StartsWith(lines[0], "@@")
    ensures Finish(source, Run(source, lines, c, open)) == Some(final) <==>
            ParseLines(lines).Some? && (open || ParseLines(lines).value.edits == [])
            && exists runs :: Fits(source, ParseLines(lines).value, c, final, runs)
    decreases |lines|, 0
  {
    hide Fits, ParseHeader, ParseEdit, ApplyEdit;
    var h, q := ParseHeader(lines[0]), ParseLines(lines[1..]);
    if h.Ok? {
      var at := h.value;
      if q.Some? {
        HeaderFits(source, q.value, at, c, final);
        assert ParseLines(lines) == Some(Parsed([], [Hunk(at, q.value.edits)] + q.value.hunks));
      }
      if c.pos <= at <= |source| { RunMeans(source, lines[1..], Cursor(at, c.out + source[c.pos..at]), true, final); }
    }
  }

  lemma HeaderFits(source: string, q: Parsed, at: nat, c: Cursor, final: string)
    requires c.pos <= |source|
    ensures (exists runs :: Fits(source, Parsed([], [Hunk(at, q.edits)] + q.hunks), c, final, runs)) <==>
            c.pos <= at <= |source| && exists runs :: Fits(source, q, Cursor(at, c.out + source[c.pos..at]), final, runs)
  {
    hide *;
    var p := Parsed([], [Hunk(at, q.edits)] + q.hunks);
    if runs :| Fits(source, p, c, final, runs) {
      FitsCount(source, p, c, final, runs);
      FitsHunk(source, q, at, c, final, runs[0], runs[1..]);
      assert Fits(source, q, Cursor(at, c.out + source[c.pos..at]), final, runs[1..]);
    }
    if c.pos <= at <= |source| {
      if runs :| Fits(source, q, Cursor(at, c.out + source[c.pos..at]), final, runs) {
        FitsHunk(source, q, at, c, final, source[c.pos..at], runs);
        assert Fits(source, p, c, final, [source[c.pos..at]] + runs);
      }
    }
  }

  lemma FitsCount(source: string, p: Parsed, c: Cursor, final: string, runs: seq<string>)
    requires Fits(source, p, c, final, runs)
    ensures |runs| > 0 && runs == [runs[0]] + runs[1..]
  {}

  lemma {:induction false} RunMeansEdit(source: string, lines: seq<string>, c: Cursor, final: string)
    requires c.pos <= |source| && lines != [] && !StartsWith(lines[0], "@@")
    ensures Finish(source, Run(source, lines, c, true)) == Some(final) <==>
            ParseLines(lines).Some? && exists runs :: Fits(source, ParseLines(lines).value, c, final, runs)
    decreases |lines|, 0
  {
    hide Fits, ParseEdit, ApplyEdit;
    var e, q := ParseEdit(lines[0]), ParseLines(lines[1..]);
    if e.Ok? {
      EditApplies(source, c, e.value);
      var d := ApplyEdit(source, c, e.value);
      if d.Ok? { RunMeans(source, lines[1..], d.value, true, final); }
      if q.Some? {
        forall runs ensures Fits(source, Parsed([e.value] + q.value.edits, q.value.hunks), c, final, runs) <==>
                            d.Ok? && Fits(source, q.value, d.value, final, runs) {
          FitsEdit(source, q.value, e.value, c, final, runs);
        }
      }
    }
  }

  function OldPart(e: Edit): string { if e.Put? then "" else e.text }

  function NewPart(e: Edit): string { if e.Drop? then "" else e.text }

  /** `source` is the runs with the hunks' old texts in place, `out` the runs with the new ones. */
  ghost predicate Rewrites(source: string, hunks: seq<Hunk>, runs: seq<string>, out: string)
  {
    && |runs| == |hunks| + 1 && Placed(hunks, runs, 0)
    && source == Before(hunks, runs) && out == After(hunks, runs)
  }

  /** The whole meaning of the undo: it answers `out` exactly when the patch text spells hunks
      whose context and deleted text sit at their offsets with unchanged runs in between, and
      `out` is those runs and the context with the inserted text in place. */
  lemma UnpatchMeans(source: string, patch: string, out: string)
    ensures Unpatch(source, patch) == Ok(out) <==>
            ParsePatch(patch).Some? && exists runs :: Rewrites(source, ParsePatch(patch).value, runs, out)
  {
    hide ParseLines, Run, Fits, Rewrites, Lines;
    RunMeans(source, Lines(patch), Cursor(0, ""), false, out);
    if ParsePatch(patch).Some? {
      forall runs ensures Fits(source, Parsed([], ParsePatch(patch).value), Cursor(0, ""), out, runs)
                          <==> Rewrites(source, ParsePatch(patch).value, runs, out) {
        FitsAtStart(source, ParsePatch(patch).value, out, runs);
      }
    }
  }

  lemma FitsAtStart(source: string, hunks: seq<Hunk>, out: string, runs: seq<string>)
    ensures Fits(source, Parsed([], hunks), Cursor(0, ""), out, runs) <==> Rewrites(source, hunks, runs, out)
  {
    hide OldText, NewText, Before, After, Placed;
    NoText();
    assert source[0..] == source;
    if |runs| == |hunks| + 1 {
      Cat(Before(hunks, runs), "", "");
      Cat(After(hunks, runs), "", "");
    }
  }
}
