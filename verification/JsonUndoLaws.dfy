/** `apply_undo` against RFC 6902: on every list of operations the RFC can apply, the kernel
    reaches the same document, so an inverse list restores the document before the edits. */
module JsonUndoLaws {
  import opened Wrappers
  import opened Collections
  import opened Text
  import opened Json
  import Rfc = Rfc6902
  import TextPatch
  import Undo = JsonUndo

  // ---- pointers ----

  lemma ReplaceStep(c: char, t: string, digit: char, with: char)
    requires c != '~' || t == "" || t[0] != digit
    ensures Undo.ReplaceEscape([c] + t, digit, with) == [c] + Undo.ReplaceEscape(t, digit, with)
  {
    assert ([c] + t)[1..] == t;
  }

  lemma ReplaceHit(t: string, digit: char, with: char)
    ensures Undo.ReplaceEscape(['~', digit] + t, digit, with) == [with] + Undo.ReplaceEscape(t, digit, with)
  {
    assert (['~', digit] + t)[2..] == t;
  }

  /** Replacing `~1` and then `~0` everywhere is the RFC's left-to-right reading. */
  lemma {:induction false} TokenAgrees(t: string)
    requires Rfc.Token(t).Some?
    ensures Undo.DecodeToken(t) == Rfc.Token(t).value
    decreases |t|
  {
    if t != "" {
      var c := t[0];
      if c == '~' {
        var rest := t[2..];
        TokenAgrees(rest);
        var half := Undo.ReplaceEscape(rest, '1', '/');
        assert t == ['~', t[1]] + rest;
        if t[1] == '1' {
          ReplaceHit(rest, '1', '/');
          ReplaceStep('/', half, '0', '~');
        } else {
          assert t == ['~'] + (['0'] + rest);
          ReplaceStep('~', ['0'] + rest, '1', '/');
          ReplaceStep('0', rest, '1', '/');
          assert ['~'] + (['0'] + half) == ['~', '0'] + half;
          ReplaceHit(half, '0', '~');
        }
      } else {
        TokenAgrees(t[1..]);
        assert t == [c] + t[1..];
        ReplaceStep(c, t[1..], '1', '/');
        ReplaceStep(c, Undo.ReplaceEscape(t[1..], '1', '/'), '0', '~');
      }
    }
  }

  lemma {:induction false} TokensAgree(parts: seq<string>)
    requires Rfc.Tokens(parts).Some?
    ensures Undo.DecodeTokens(parts) == Rfc.Tokens(parts).value
  {
    if parts != [] {
      TokenAgrees(parts[0]);
      TokensAgree(parts[1..]);
    }
  }

  lemma PointerAgrees(path: string)
    requires Rfc.Pointer(path).Some?
    ensures Undo.PathTokens(path) == Rfc.Pointer(path).value
  {
    TokensAgree(Split(path, '/')[1..]);
  }

  lemma IndexAgrees(tok: string)
    requires Rfc.Index(tok).Some?
    ensures ParseUsize(tok) == Rfc.Index(tok) && tok != "-"
  {
    assert IsDigit(tok[0]);
  }

  // ---- operations ----

  function Kind(op: Rfc.PatchOp): string
  {
    match op
    case Add(_, _) => "add"
    case Remove(_) => "remove"
    case Replace(_, _) => "replace"
  }

  /** The kernel's view of an RFC operation, whatever its path text and (for remove) value. */
  predicate Reads(k: Undo.Op, op: Rfc.PatchOp)
  {
    k.kind == Kind(op) && (!op.Remove? ==> k.value == Some(op.value))
  }

  lemma LeafAgrees(target: Value, tok: string, k: Undo.Op, op: Rfc.PatchOp)
    requires Reads(k, op) && Rfc.ApplyLeaf(target, tok, op).Some?
    ensures Undo.EditLeaf(target, tok, k) == Ok(Rfc.ApplyLeaf(target, tok, op).value)
  {
    assert |"add"| == 3 && |"remove"| == 6 && |"replace"| == 7 && "change"[0] == 'c';
    hide Undo.Unpatched, ParseUsize, Rfc.Index;
    if target.Arr? && tok != "-" { IndexAgrees(tok); }
  }

  lemma ChildAgrees(v: Value, tok: string)
    requires Rfc.Step(v, tok).Some?
    ensures Undo.Child(v, tok) == Ok(Rfc.Step(v, tok).value)
    ensures forall child :: Undo.WithChild(v, tok, child) == Rfc.PutChild(v, tok, child)
  {
    if v.Arr? { IndexAgrees(tok); }
  }

  lemma {:induction false} EditAgrees(doc: Value, k: Undo.Op, op: Rfc.PatchOp)
    requires Reads(k, op) && op.path != [] && Rfc.Apply(doc, op).Some?
    ensures Undo.EditAt(doc, op.path, k) == Ok(Rfc.Apply(doc, op).value)
    decreases |op.path|
  {
    if |op.path| == 1 {
      LeafAgrees(doc, op.path[0], k, op);
    } else {
      hide Undo.EditLeaf, Rfc.ApplyLeaf, Undo.Child, Rfc.Step, Undo.WithChild, Rfc.PutChild;
      ChildAgrees(doc, op.path[0]);
      EditAgrees(Rfc.Step(doc, op.path[0]).value, k, op.(path := op.path[1..]));
    }
  }

  lemma OneAgrees(doc: Value, o: Value)
    requires Rfc.ReadPatchOp(o).Some? && Rfc.Apply(doc, Rfc.ReadPatchOp(o).value).Some?
    ensures Undo.UndoOne(doc, Undo.ReadOp(o)) == Ok(Rfc.Apply(doc, Rfc.ReadPatchOp(o).value).value)
  {
    var op, k := Rfc.ReadPatchOp(o).value, Undo.ReadOp(o);
    PointerAgrees(k.path);
    hide Undo.EditAt, Undo.PathTokens, Rfc.Pointer;
    assert Reads(k, op) && Undo.Reversible(k.kind);
    if op.path != [] { EditAgrees(doc, k, op); }
  }

  /** Section 4 of RFC 6902 with the pointers of section 4 of RFC 6901: every applicable list of
      add, remove and replace operations takes the kernel to the RFC's document. */
  lemma {:induction false} UndoIsRfc(doc: Value, os: seq<Value>)
    requires Rfc.ReadPatch(os).Some? && Rfc.ApplyAll(doc, Rfc.ReadPatch(os).value).Some?
    ensures Undo.Undo(doc, os) == Ok(Rfc.ApplyAll(doc, Rfc.ReadPatch(os).value).value)
    decreases |os|
  {
    if os != [] {
      hide Undo.UndoOne, Rfc.Apply, Rfc.ReadPatchOp, Undo.ReadOp;
      var ops := Rfc.ReadPatch(os).value;
      assert ops[0] == Rfc.ReadPatchOp(os[0]).value && ops[1..] == Rfc.ReadPatch(os[1..]).value;
      OneAgrees(doc, os[0]);
      UndoIsRfc(Rfc.Apply(doc, ops[0]).value, os[1..]);
    }
  }

  /** Whatever list of edits was applied, feeding its inverse list (written as JSON) to the kernel
      with the edited document gives back the document before the edits. */
  lemma UndoRestores(before: Value, ops: seq<Rfc.PatchOp>)
    requires Rfc.ApplyAll(before, ops).Some?
    ensures Undo.Undo(Rfc.ApplyAll(before, ops).value, Rfc.WritePatch(Rfc.InverseAll(before, ops))) == Ok(before)
  {
    var inv := Rfc.InverseAll(before, ops);
    Rfc.InverseAllUndoes(before, ops);
    Rfc.PatchRoundTrip(inv);
    UndoIsRfc(Rfc.ApplyAll(before, ops).value, Rfc.WritePatch(inv));
  }

  // ---- where the kernel is laxer than the RFC ----

  /** A plus sign or a leading zero, which section 4 of RFC 6901 does not allow in an index. */
  predicate Misspelt(tok: string) { "+" <= tok || ("0" <= tok && tok != "0") }

  lemma IndexExactly(tok: string)
    requires ParseUsize(tok).Some?
    ensures Rfc.Index(tok) == if Misspelt(tok) then None else ParseUsize(tok)
    ensures tok != "-"
  {}

  /** The operations at the last container that the kernel carries out and the RFC refuses. */
  predicate Lax(target: Value, tok: string, op: Rfc.PatchOp)
  {
    match target
    case Obj(m) => tok !in m && !op.Add?
    case Arr(a) =>
      if tok == "-" then op.Remove? || (op.Add? && |a| > USIZE_MAX)
      else
        var i := ParseUsize(tok);
        && i.Some?
        && (op.Add? ==> i.value > |a| || Misspelt(tok))
        && (op.Remove? ==> i.value >= |a| || Misspelt(tok))
        && (op.Replace? ==> i.value < |a| && Misspelt(tok))
    case _ => false
  }

  lemma LaxLeaf(target: Value, tok: string, k: Undo.Op, op: Rfc.PatchOp)
    requires Reads(k, op)
    ensures Undo.EditLeaf(target, tok, k).Ok? && Rfc.ApplyLeaf(target, tok, op).None? <==> Lax(target, tok, op)
    ensures Undo.EditLeaf(target, tok, k).Err? ==> Rfc.ApplyLeaf(target, tok, op).None?
  {
    Kinds();
    if Rfc.Index(tok).Some? { IndexAgrees(tok); }
    if ParseUsize(tok).Some? { IndexExactly(tok); }
    hide Undo.Unpatched, ParseUsize, Rfc.Index, Misspelt;
  }

  lemma Kinds()
    ensures "change" != "add" && "change" != "remove" && "change" != "replace"
    ensures "add" != "remove" && "add" != "replace" && "remove" != "replace"
  {
    assert |"add"| == 3 && |"remove"| == 6 && |"replace"| == 7 && "change"[0] == 'c' && "remove"[0] == 'r';
  }

  lemma LaxChild(v: Value, tok: string)
    ensures Undo.Child(v, tok).Ok? && Rfc.Step(v, tok).None? <==> v.Arr? && Undo.Child(v, tok).Ok? && Misspelt(tok)
    ensures Undo.Child(v, tok).Err? ==> Rfc.Step(v, tok).None?
  {
    if v.Arr? {
      if Rfc.Index(tok).Some? { IndexAgrees(tok); }
      if ParseUsize(tok).Some? { IndexExactly(tok); }
    }
  }

  /** Some array on the way down is entered by a misspelt index, or the last step is lax. */
  predicate Strays(doc: Value, op: Rfc.PatchOp)
    requires op.path != []
    decreases |op.path|
  {
    var tok := op.path[0];
    if |op.path| == 1 then Lax(doc, tok, op)
    else
      var child := Undo.Child(doc, tok);
      child.Ok? && ((doc.Arr? && Misspelt(tok)) || Strays(child.value, op.(path := op.path[1..])))
  }

  /** The kernel carries out every operation the RFC does, and of the others exactly those whose path
      strays. */
  lemma {:induction false} LaxExactly(doc: Value, k: Undo.Op, op: Rfc.PatchOp)
    requires Reads(k, op) && op.path != []
    ensures Rfc.Apply(doc, op).Some? <==> Undo.EditAt(doc, op.path, k).Ok? && !Strays(doc, op)
    ensures Rfc.Apply(doc, op).Some? ==> Undo.EditAt(doc, op.path, k) == Ok(Rfc.Apply(doc, op).value)
    decreases |op.path|
  {
    if Rfc.Apply(doc, op).Some? { EditAgrees(doc, k, op); }
    hide Undo.EditLeaf, Rfc.ApplyLeaf, Undo.Child, Rfc.Step, Undo.WithChild, Rfc.PutChild, Lax, Misspelt;
    var tok := op.path[0];
    if |op.path| == 1 {
      LaxLeaf(doc, tok, k, op);
    } else {
      LaxChild(doc, tok);
      var child := Undo.Child(doc, tok);
      if Rfc.Step(doc, tok).Some? { ChildAgrees(doc, tok); }
      if child.Ok? { LaxExactly(child.value, k, op.(path := op.path[1..])); }
    }
  }

  /** What the kernel does then: removing what is not there changes nothing, replacing an absent member
      inserts it, adding past the end appends, and a misspelt index stands for the plain one. */
  lemma LaxCases(target: Value, tok: string, k: Undo.Op, op: Rfc.PatchOp)
    requires Reads(k, op) && Lax(target, tok, op)
    ensures var r := Undo.EditLeaf(target, tok, k);
            match target
            case Obj(m) => r == Ok(Obj(if op.Remove? then m else m[tok := op.value]))
            case Arr(a) =>
              var i := if tok == "-" then |a| else ParseUsize(tok).value;
              var plain := Numeral(i, 10);
              if op.Remove? && i >= |a| then r == Ok(target)
              else if op.Add? && i >= |a| then r == Ok(Arr(a + [op.value]))
              else Rfc.ApplyLeaf(target, plain, op).Some? && r == Ok(Rfc.ApplyLeaf(target, plain, op).value)
            case _ => false
  {
    Kinds();
    if target.Obj? {
      assert op.Remove? ==> target.members - {tok} == target.members;
    } else {
      var a := target.items;
      assert op.Add? ==> InsertAt(a, |a|, op.value) == a + [op.value];
      if tok != "-" && ParseUsize(tok).value < |a| { LaxItem(a, tok, k, op); }
    }
  }

  lemma LaxItem(a: seq<Value>, tok: string, k: Undo.Op, op: Rfc.PatchOp)
    requires Reads(k, op) && tok != "-" && ParseUsize(tok).Some? && ParseUsize(tok).value < |a|
    ensures var plain := Numeral(ParseUsize(tok).value, 10);
            Rfc.ApplyLeaf(Arr(a), plain, op).Some? && Undo.EditLeaf(Arr(a), tok, k) == Ok(Rfc.ApplyLeaf(Arr(a), plain, op).value)
  {
    var plain := Numeral(ParseUsize(tok).value, 10);
    Kinds();
    Rfc.IndexNumeral(ParseUsize(tok).value);
    IndexAgrees(plain);
    hide ParseUsize, Rfc.Index, Numeral;
  }

  // ---- text changes among the operations ----

  /** The text a `change` operation leads to, given the text it finds. */
  function Retold(found: Option<Value>, patch: Option<Value>): Option<string>
  {
    var text, p := AsStr(found), AsStr(patch);
    if text.None? || p.None? then None
    else
      var r := TextPatch.Unpatch(text.value, p.value);
      if r.Ok? then Some(r.value) else None
  }

  function At(doc: Value, toks: seq<string>): Option<Value>
    decreases |toks|
  {
    if toks == [] then Some(doc)
    else
      var child := Rfc.Step(doc, toks[0]);
      if child.None? then None else At(child.value, toks[1..])
  }

  /** What an undo operation means by itself: a `change` replaces the text it points at by that text
      with the diff taken back; any other is the RFC's. */
  function Means(doc: Value, o: Value): Option<Value>
  {
    if AsStr(Get(o, "op")) == Some("change") then
      var path := AsStr(Get(o, "path"));
      if path.None? || Rfc.Pointer(path.value).None? || Rfc.Pointer(path.value).value == [] then None
      else
        var toks := Rfc.Pointer(path.value).value;
        var text := Retold(At(doc, toks), Get(o, "value"));
        if text.None? then None else Rfc.Apply(doc, Rfc.Replace(toks, Str(text.value)))
    else
      var op := Rfc.ReadPatchOp(o);
      if op.None? then None else Rfc.Apply(doc, op.value)
  }

  function MeansAll(doc: Value, os: seq<Value>): Option<Value>
    decreases |os|
  {
    if os == [] then Some(doc)
    else
      var next := Means(doc, os[0]);
      if next.None? then None else MeansAll(next.value, os[1..])
  }

  lemma ChangeLeaf(target: Value, tok: string, k: Undo.Op)
    requires k.kind == "change" && Rfc.Step(target, tok).Some? && Retold(Rfc.Step(target, tok), k.value).Some?
    ensures var retold := Str(Retold(Rfc.Step(target, tok), k.value).value);
            Undo.EditLeaf(target, tok, k) == Ok(Rfc.PutChild(target, tok, retold))
  {
    assert |"add"| == 3 && |"replace"| == 7 && "change"[0] == 'c' && "remove"[0] == 'r';
    hide TextPatch.Unpatch, ParseUsize, Rfc.Index;
    if target.Arr? { IndexAgrees(tok); }
  }

  lemma ReplaceLeaf(target: Value, tok: string, v: Value)
    requires Rfc.Step(target, tok).Some?
    ensures Rfc.ApplyLeaf(target, tok, Rfc.Replace([tok], v)) == Some(Rfc.PutChild(target, tok, v))
  {}

  lemma ReplaceDeeper(doc: Value, toks: seq<string>, v: Value)
    requires |toks| > 1 && Rfc.Step(doc, toks[0]).Some?
    ensures Rfc.Apply(doc, Rfc.Replace(toks, v)) ==
            var edited := Rfc.Apply(Rfc.Step(doc, toks[0]).value, Rfc.Replace(toks[1..], v));
            if edited.None? then None else Some(Rfc.PutChild(doc, toks[0], edited.value))
  {
    hide Rfc.ApplyLeaf, Rfc.Step, Rfc.PutChild;
  }

  lemma {:induction false} ChangeAgrees(doc: Value, toks: seq<string>, k: Undo.Op)
    requires k.kind == "change" && toks != [] && Retold(At(doc, toks), k.value).Some?
    ensures var op := Rfc.Replace(toks, Str(Retold(At(doc, toks), k.value).value));
            Rfc.Apply(doc, op).Some? && Undo.EditAt(doc, toks, k) == Ok(Rfc.Apply(doc, op).value)
    decreases |toks|
  {
    var v := Str(Retold(At(doc, toks), k.value).value);
    assert At(doc, toks) == At(Rfc.Step(doc, toks[0]).value, toks[1..]);
    if |toks| == 1 {
      hide Undo.EditLeaf, Rfc.Step, Rfc.PutChild, Retold;
      ChangeLeaf(doc, toks[0], k);
      ReplaceLeaf(doc, toks[0], v);
      assert toks == [toks[0]];
    } else {
      hide Undo.EditLeaf, Rfc.ApplyLeaf, Undo.Child, Rfc.Step, Undo.WithChild, Rfc.PutChild, Retold;
      ChildAgrees(doc, toks[0]);
      ChangeAgrees(Rfc.Step(doc, toks[0]).value, toks[1..], k);
      ReplaceDeeper(doc, toks, v);
    }
  }

  lemma StepAgrees(doc: Value, o: Value)
    requires Means(doc, o).Some?
    ensures Undo.UndoOne(doc, Undo.ReadOp(o)) == Ok(Means(doc, o).value)
  {
    hide Undo.EditAt, Undo.PathTokens, Rfc.Pointer, Rfc.Apply, Retold, At;
    if AsStr(Get(o, "op")) == Some("change") {
      var k := Undo.ReadOp(o);
      PointerAgrees(k.path);
      ChangeAgrees(doc, Rfc.Pointer(k.path).value, k);
    } else {
      OneAgrees(doc, o);
    }
  }

  /** Undo lists as the changefeed really writes them, text changes and document operations mixed:
      whenever each applies in turn, the kernel reaches the document they mean. */
  lemma {:induction false} UndoMeans(doc: Value, os: seq<Value>)
    requires MeansAll(doc, os).Some?
    ensures Undo.Undo(doc, os) == Ok(MeansAll(doc, os).value)
    decreases |os|
  {
    if os != [] {
      hide Undo.UndoOne, Undo.ReadOp, Means;
      StepAgrees(doc, os[0]);
      UndoMeans(Means(doc, os[0]).value, os[1..]);
    }
  }

  lemma {:induction false} SplitCount(s: string, c: char)
    ensures |Split(s, c)| == 1 <==> !Has(s, c)
  {
    if s != "" {
      SplitCount(s[1..], c);
      assert s == [s[0]] + s[1..];
      HasAppend([s[0]], s[1..], c);
      assert Has([s[0]], c) <==> s[0] == c by {
        if s[0] == c { assert [s[0]][0] == c; }
      }
    }
  }

  /** A path without a slash, empty or not, has no tokens: whatever the operation, its value is taken
      for the document. A text change there is not read as one: the diff itself becomes the document. */
  lemma ChangeAtRoot(found: Value, op: Undo.Op)
    requires Undo.Reversible(op.kind)
    ensures Undo.PathTokens(op.path) == [] <==> !Has(op.path, '/')
    ensures !Has(op.path, '/') ==> Undo.UndoOne(found, op) == Ok(Undo.Operand(op))
    ensures !Has(op.path, '/') && op.kind == "change" && op.value.Some? ==> Undo.UndoOne(found, op) == Ok(op.value.value)
  {
    SplitCount(op.path, '/');
  }
}
