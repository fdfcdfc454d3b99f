/** Edits of a document as the changefeed records them, document operations and text changes mixed,
    and the undo list written for them: the kernel's `apply_undo` takes it back. */
module UndoEdits {
  import opened Wrappers
  import opened Text
  import opened Json
  import opened JsonUndoLaws
  import Rfc = Rfc6902
  import TextPatch
  import Spelled = TextPatchLaws
  import Printer = TextPatchPrinter
  import Undo = JsonUndo

  /** A document operation, or a text at a path set to `now`, with the diff that takes it back. */
  datatype Edit =
    | Whole(op: Rfc.PatchOp)
    | Retext(path: seq<string>, now: string, patch: string)

  function Made(doc: Value, e: Edit): Option<Value>
  {
    match e
    case Whole(op) => Rfc.Apply(doc, op)
    case Retext(path, now, patch) =>
      var was := At(doc, path);
      if path == [] || was.None? || !was.value.Str? || TextPatch.Unpatch(now, patch) != Ok(was.value.s) then None
      else Rfc.Apply(doc, Rfc.Replace(path, Str(now)))
  }

  function MadeAll(doc: Value, es: seq<Edit>): Option<Value>
    decreases |es|
  {
    if es == [] then Some(doc)
    else
      var next := Made(doc, es[0]);
      if next.None? then None else MadeAll(next.value, es[1..])
  }

  /** The undo operation as JSON. */
  function WriteUndo(doc: Value, e: Edit): Value
    requires Made(doc, e).Some?
  {
    match e
    case Whole(op) => Rfc.WritePatchOp(Rfc.Inverse(doc, op))
    case Retext(path, _, patch) =>
      Obj(map["op" := Str("change"), "path" := Str(Rfc.PrintPointer(path)), "value" := Str(patch)])
  }

  /** The last edit is undone first. */
  function WriteUndoAll(doc: Value, es: seq<Edit>): seq<Value>
    requires MadeAll(doc, es).Some?
    decreases |es|
  {
    if es == [] then [] else WriteUndoAll(Made(doc, es[0]).value, es[1..]) + [WriteUndo(doc, es[0])]
  }

  /** A value set anew is found there, and setting the old one back restores the document. */
  lemma {:induction false} ReplacedAt(doc: Value, toks: seq<string>, v: Value)
    requires toks != [] && At(doc, toks).Some?
    ensures Rfc.Apply(doc, Rfc.Replace(toks, v)).Some?
    ensures var after := Rfc.Apply(doc, Rfc.Replace(toks, v)).value;
            At(after, toks) == Some(v) && Rfc.Apply(after, Rfc.Replace(toks, At(doc, toks).value)) == Some(doc)
    decreases |toks|
  {
    hide Rfc.ApplyLeaf, Rfc.Step, Rfc.PutChild;
    var (tok, was) := (toks[0], At(doc, toks).value);
    var child := Rfc.Step(doc, tok).value;
    if |toks| == 1 {
      assert toks == [tok] && toks[1..] == [];
      ReplaceLeaf(doc, tok, v);
      Rfc.PutChildTwice(doc, tok, v);
      ReplaceLeaf(Rfc.PutChild(doc, tok, v), tok, was);
    } else {
      ReplacedAt(child, toks[1..], v);
      var inner := Rfc.Apply(child, Rfc.Replace(toks[1..], v)).value;
      ReplaceDeeper(doc, toks, v);
      Rfc.PutChildTwice(doc, tok, inner);
      ReplaceDeeper(Rfc.PutChild(doc, tok, inner), toks, was);
    }
  }

  lemma WholeUndone(doc: Value, op: Rfc.PatchOp)
    requires Rfc.Apply(doc, op).Some?
    ensures Means(Rfc.Apply(doc, op).value, Rfc.WritePatchOp(Rfc.Inverse(doc, op))) == Some(doc)
  {
    hide Rfc.Apply, Rfc.Inverse, Rfc.ReadPatchOp, Rfc.WritePatchOp;
    var inv := Rfc.Inverse(doc, op);
    Rfc.InverseUndoes(doc, op);
    Rfc.OpRoundTrip(inv);
    NotChange(inv);
  }

  lemma NotChange(op: Rfc.PatchOp)
    ensures AsStr(Get(Rfc.WritePatchOp(op), "op")) != Some("change")
  {
    Kinds();
    assert |"op"| == 2 && |"path"| == 4 && |"value"| == 5;
  }

  lemma RetextUndone(doc: Value, e: Edit)
    requires e.Retext? && Made(doc, e).Some?
    ensures Means(Made(doc, e).value, WriteUndo(doc, e)) == Some(doc)
  {
    hide Rfc.Apply, Rfc.Pointer, Rfc.PrintPointer, At, TextPatch.Unpatch;
    var o := WriteUndo(doc, e);
    assert |"op"| == 2 && |"path"| == 4 && |"value"| == 5;
    assert AsStr(Get(o, "op")) == Some("change");
    assert AsStr(Get(o, "path")) == Some(Rfc.PrintPointer(e.path)) && Get(o, "value") == Some(Str(e.patch));
    Rfc.PointerRoundTrip(e.path);
    ReplacedAt(doc, e.path, Str(e.now));
  }

  lemma OneUndone(doc: Value, e: Edit)
    requires Made(doc, e).Some?
    ensures Means(Made(doc, e).value, WriteUndo(doc, e)) == Some(doc)
  {
    if e.Whole? { WholeUndone(doc, e.op); } else { RetextUndone(doc, e); }
  }

  lemma {:induction false} MeansAppend(doc: Value, os: seq<Value>, last: Value)
    ensures MeansAll(doc, os + [last]) ==
            if MeansAll(doc, os).None? then None else Means(MeansAll(doc, os).value, last)
    decreases |os|
  {
    hide Means;
    var all := os + [last];
    if os == [] {
      assert all[1..] == [];
    } else {
      assert all[1..] == os[1..] + [last];
      if Means(doc, os[0]).Some? { MeansAppend(Means(doc, os[0]).value, os[1..], last); }
    }
  }

  lemma {:induction false} AllUndone(doc: Value, es: seq<Edit>)
    requires MadeAll(doc, es).Some?
    ensures MeansAll(MadeAll(doc, es).value, WriteUndoAll(doc, es)) == Some(doc)
    decreases |es|
  {
    hide Made, Means, WriteUndo;
    if es != [] {
      var next := Made(doc, es[0]).value;
      AllUndone(next, es[1..]);
      OneUndone(doc, es[0]);
      MeansAppend(MadeAll(doc, es).value, WriteUndoAll(next, es[1..]), WriteUndo(doc, es[0]));
    }
  }

  /** Whatever edits were made, `apply_undo` with their undo list gives back the document before. */
  lemma EditsUndone(before: Value, es: seq<Edit>)
    requires MadeAll(before, es).Some?
    ensures Undo.Undo(MadeAll(before, es).value, WriteUndoAll(before, es)) == Ok(before)
  {
    AllUndone(before, es);
    UndoMeans(MadeAll(before, es).value, WriteUndoAll(before, es));
  }

  /** Any text can be set to any other, given hunks that describe the way back: their printed diff
      makes it an edit. */
  lemma PrintedRetext(doc: Value, path: seq<string>, hunks: seq<Spelled.Hunk>, runs: seq<string>,
                      plus: Spelled.Hunk -> string, plain: char -> bool)
    requires |runs| == |hunks| + 1 && Spelled.Placed(hunks, runs, 0) && |Spelled.Before(hunks, runs)| < USIZE_MAX
    requires Printer.Spares(plain) && forall h :: Printer.OneLine(plus(h))
    requires path != [] && At(doc, path) == Some(Str(Spelled.After(hunks, runs)))
    ensures var now := Spelled.Before(hunks, runs);
            var e := Retext(path, now, Printer.PrintPatch(hunks, plus, plain));
            Made(doc, e).Some? && At(Made(doc, e).value, path) == Some(Str(now))
  {
    Printer.PrintedPatchApplies(hunks, runs, plus, plain);
    ReplacedAt(doc, path, Str(Spelled.Before(hunks, runs)));
  }
}
