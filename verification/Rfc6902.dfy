/** JSON Pointer (section 4 of RFC 6901) and the add, remove and replace operations of JSON
    Patch (section 4 of RFC 6902): what the changefeed's undo lists mean by themselves. */
module Rfc6902 {
  import opened Wrappers
  import opened Collections
  import opened Text
  import opened Json

  /** A reference token with `~0` and `~1` undone; any other tilde is malformed. */
  function Token(t: string): Option<string>
  {
    if t == "" then Some("")
    else if t[0] == '~' then
      if |t| >= 2 && (t[1] == '0' || t[1] == '1') then
        var rest := Token(t[2..]);
        if rest.None? then None else Some([if t[1] == '0' then '~' else '/'] + rest.value)
      else None
    else
      var rest := Token(t[1..]);
      if rest.None? then None else Some([t[0]] + rest.value)
  }

  function Tokens(parts: seq<string>): (toks: Option<seq<string>>)
    ensures toks.Some? ==> |toks.value| == |parts|
  {
    if parts == [] then Some([])
    else
      var t, rest := Token(parts[0]), Tokens(parts[1..]);
      if t.None? || rest.None? then None else Some([t.value] + rest.value)
  }

  /** Empty, or a slash before every token. */
  function Pointer(s: string): Option<seq<string>>
  {
    var parts := Split(s, '/');
    if parts[0] != "" then None else Tokens(parts[1..])
  }

  /** An array index: no sign, no leading zeros. Arrays longer than memory are left aside. */
  function Index(t: string): Option<nat>
  {
    if t == "" || !AllDigits(t) || (t[0] == '0' && t != "0") then None
    else if NumeralValue(t, 10) > USIZE_MAX then None
    else Some(NumeralValue(t, 10))
  }

  datatype PatchOp =
    | Add(path: seq<string>, value: Value)
    | Remove(path: seq<string>)
    | Replace(path: seq<string>, value: Value)

  function Step(v: Value, tok: string): Option<Value>
  {
    match v
    case Obj(m) => if tok in m then Some(m[tok]) else None
    case Arr(a) => var i := Index(tok); if i.Some? && i.value < |a| then Some(a[i.value]) else None
    case _ => None
  }

  function PutChild(v: Value, tok: string, child: Value): Value
    requires Step(v, tok).Some?
  {
    if v.Obj? then Obj(v.members[tok := child]) else Arr(v.items[Index(tok).value := child])
  }

  /** Where `add` puts a new array element. */
  function Slot(a: seq<Value>, tok: string): Option<nat>
  {
    if tok == "-" then (if |a| <= USIZE_MAX then Some(|a|) else None)
    else
      var i := Index(tok);
      if i.Some? && i.value <= |a| then i else None
  }

  function ApplyLeaf(target: Value, tok: string, op: PatchOp): Option<Value>
  {
    match target
    case Obj(m) =>
      if op.Add? then Some(Obj(m[tok := op.value]))
      else if tok !in m then None
      else if op.Remove? then Some(Obj(m - {tok})) else Some(Obj(m[tok := op.value]))
    case Arr(a) =>
      if op.Add? then
        var i := Slot(a, tok);
        if i.None? then None else Some(Arr(InsertAt(a, i.value, op.value)))
      else if Step(target, tok).None? then None
      else
        var i := Index(tok).value;
        if op.Remove? then Some(Arr(DeleteAt(a, i))) else Some(Arr(a[i := op.value]))
    case _ => None
  }

  /** Removing the whole document is left aside: RFC 6902 gives it no result document. */
  function Apply(doc: Value, op: PatchOp): Option<Value>
    decreases |op.path|
  {
    if op.path == [] then (if op.Remove? then None else Some(op.value))
    else if |op.path| == 1 then ApplyLeaf(doc, op.path[0], op)
    else
      var child := Step(doc, op.path[0]);
      if child.None? then None
      else
        var edited := Apply(child.value, op.(path := op.path[1..]));
        if edited.None? then None else Some(PutChild(doc, op.path[0], edited.value))
  }

  function ApplyAll(doc: Value, ops: seq<PatchOp>): Option<Value>
    decreases |ops|
  {
    if ops == [] then Some(doc)
    else
      var next := Apply(doc, ops[0]);
      if next.None? then None else ApplyAll(next.value, ops[1..])
  }

  // ---- operations as JSON objects ----

  function ReadPatchOp(o: Value): Option<PatchOp>
  {
    var kind, path, value := AsStr(Get(o, "op")), AsStr(Get(o, "path")), Get(o, "value");
    if kind.None? || path.None? || Pointer(path.value).None? then None
    else
      var p := Pointer(path.value).value;
      if kind.value == "remove" then Some(Remove(p))
      else if value.None? then None
      else if kind.value == "add" then Some(Add(p, value.value))
      else if kind.value == "replace" then Some(Replace(p, value.value))
      else None
  }

  function ReadPatch(os: seq<Value>): (ops: Option<seq<PatchOp>>)
    ensures ops.Some? ==> |ops.value| == |os|
  {
    if os == [] then Some([])
    else
      var op, rest := ReadPatchOp(os[0]), ReadPatch(os[1..]);
      if op.None? || rest.None? then None else Some([op.value] + rest.value)
  }

  function EscapeToken(t: string): string
  {
    if t == "" then ""
    else (if t[0] == '~' then "~0" else if t[0] == '/' then "~1" else [t[0]]) + EscapeToken(t[1..])
  }

  function EscapeTokens(toks: seq<string>): (parts: seq<string>)
    ensures |parts| == |toks|
  {
    if toks == [] then [] else [EscapeToken(toks[0])] + EscapeTokens(toks[1..])
  }

  function PrintPointer(toks: seq<string>): string { Join([""] + EscapeTokens(toks), "/") }

  function WritePatchOp(op: PatchOp): Value
  {
    match op
    case Add(p, v) => Obj(map["op" := Str("add"), "path" := Str(PrintPointer(p)), "value" := v])
    case Remove(p) => Obj(map["op" := Str("remove"), "path" := Str(PrintPointer(p))])
    case Replace(p, v) => Obj(map["op" := Str("replace"), "path" := Str(PrintPointer(p)), "value" := v])
  }

  function WritePatch(ops: seq<PatchOp>): (os: seq<Value>)
    ensures |os| == |ops|
  {
    if ops == [] then [] else [WritePatchOp(ops[0])] + WritePatch(ops[1..])
  }

  lemma {:induction false} TokenEscaped(t: string)
    ensures Token(EscapeToken(t)) == Some(t) && !Has(EscapeToken(t), '/')
  {
    if t != "" {
      TokenEscaped(t[1..]);
      var head := if t[0] == '~' then "~0" else if t[0] == '/' then "~1" else [t[0]];
      assert EscapeToken(t) == head + EscapeToken(t[1..]);
      assert EscapeToken(t)[|head|..] == EscapeToken(t[1..]);
      assert [t[0]] + t[1..] == t;
      assert !Has(head, '/');
      HasAppend(head, EscapeToken(t[1..]), '/');
    }
  }

  lemma {:induction false} TokensEscaped(toks: seq<string>)
    ensures Tokens(EscapeTokens(toks)) == Some(toks)
    ensures forall i :: 0 <= i < |toks| ==> !Has(EscapeTokens(toks)[i], '/')
  {
    if toks != [] {
      TokenEscaped(toks[0]);
      TokensEscaped(toks[1..]);
      assert EscapeTokens(toks)[1..] == EscapeTokens(toks[1..]);
      assert EscapeTokens(toks)[0] == EscapeToken(toks[0]);
      assert [toks[0]] + toks[1..] == toks;
      forall i | 0 <= i < |toks| ensures !Has(EscapeTokens(toks)[i], '/') {
        if i > 0 { assert EscapeTokens(toks)[i] == EscapeTokens(toks[1..])[i - 1]; }
      }
    }
  }

  /** A printed pointer reads back as its tokens. */
  lemma PointerRoundTrip(toks: seq<string>)
    ensures Pointer(PrintPointer(toks)) == Some(toks)
  {
    var parts := [""] + EscapeTokens(toks);
    TokensEscaped(toks);
    SplitJoin(parts, '/');
    assert parts[1..] == EscapeTokens(toks);
  }

  lemma OpRoundTrip(op: PatchOp)
    ensures ReadPatchOp(WritePatchOp(op)) == Some(op)
  {
    PointerRoundTrip(op.path);
    hide Pointer, PrintPointer;
    var o := WritePatchOp(op);
    assert |"op"| == 2 && |"path"| == 4 && |"value"| == 5;
    assert |"add"| == 3 && |"remove"| == 6 && |"replace"| == 7;
    assert AsStr(Get(o, "path")) == Some(PrintPointer(op.path));
    match op
    case Add(p, v) => assert AsStr(Get(o, "op")) == Some("add") && Get(o, "value") == Some(v);
    case Remove(p) => assert AsStr(Get(o, "op")) == Some("remove");
    case Replace(p, v) => assert AsStr(Get(o, "op")) == Some("replace") && Get(o, "value") == Some(v);
  }

  lemma {:induction false} PatchRoundTrip(ops: seq<PatchOp>)
    ensures ReadPatch(WritePatch(ops)) == Some(ops)
  {
    if ops != [] {
      hide Pointer, PrintPointer, ReadPatchOp, WritePatchOp;
      OpRoundTrip(ops[0]);
      PatchRoundTrip(ops[1..]);
      assert WritePatch(ops)[1..] == WritePatch(ops[1..]);
      assert WritePatch(ops)[0] == WritePatchOp(ops[0]);
      assert [ops[0]] + ops[1..] == ops;
    }
  }

  // ---- inverses ----

  function InverseLeaf(target: Value, tok: string, op: PatchOp): PatchOp
    requires ApplyLeaf(target, tok, op).Some?
  {
    match target
    case Obj(m) =>
      if tok in m then (if op.Remove? then Add([tok], m[tok]) else Replace([tok], m[tok])) else Remove([tok])
    case Arr(a) =>
      if op.Add? then Remove([Numeral(Slot(a, tok).value, 10)])
      else
        var was := a[Index(tok).value];
        if op.Remove? then Add([tok], was) else Replace([tok], was)
  }

  /** The operation that undoes `op` after it was applied to `doc`. */
  function Inverse(doc: Value, op: PatchOp): PatchOp
    requires Apply(doc, op).Some?
    decreases |op.path|
  {
    if op.path == [] then Replace([], doc)
    else if |op.path| == 1 then InverseLeaf(doc, op.path[0], op)
    else
      var inner := Inverse(Step(doc, op.path[0]).value, op.(path := op.path[1..]));
      inner.(path := [op.path[0]] + inner.path)
  }

  function InverseAll(doc: Value, ops: seq<PatchOp>): seq<PatchOp>
    requires ApplyAll(doc, ops).Some?
    decreases |ops|
  {
    if ops == [] then []
    else InverseAll(Apply(doc, ops[0]).value, ops[1..]) + [Inverse(doc, ops[0])]
  }

  lemma IndexNumeral(n: nat)
    requires n <= USIZE_MAX
    ensures Index(Numeral(n, 10)) == Some(n)
  {
    NumeralRoundTrip(n, 10);
    NumeralHead(n);
  }

  lemma {:induction false} NumeralHead(n: nat)
    ensures Numeral(n, 10)[0] == '0' ==> Numeral(n, 10) == "0"
  {
    if n >= 10 { NumeralHead(n / 10); }
  }

  lemma InverseLeafUndoes(target: Value, tok: string, op: PatchOp)
    requires ApplyLeaf(target, tok, op).Some?
    ensures var inv := InverseLeaf(target, tok, op);
            |inv.path| == 1 && ApplyLeaf(ApplyLeaf(target, tok, op).value, inv.path[0], inv) == Some(target)
  {
    match target
    case Obj(m) =>
      if tok in m {
        if op.Remove? {
          assert (m - {tok})[tok := m[tok]] == m;
        } else {
          assert m[tok := op.value][tok := m[tok]] == m;
        }
      } else {
        assert m[tok := op.value] - {tok} == m;
      }
    case Arr(a) =>
      if op.Add? {
        var i := Slot(a, tok).value;
        IndexNumeral(i);
        assert DeleteAt(InsertAt(a, i, op.value), i) == a;
      } else {
        var i := Index(tok).value;
        assert tok != "-";
        if op.Remove? {
          assert InsertAt(DeleteAt(a, i), i, a[i]) == a;
        } else {
          assert a[i := op.value][i := a[i]] == a;
        }
      }
  }

  lemma {:induction false} InverseUndoes(doc: Value, op: PatchOp)
    requires Apply(doc, op).Some?
    ensures Apply(Apply(doc, op).value, Inverse(doc, op)) == Some(doc)
    ensures op.path != [] ==> Inverse(doc, op).path != []
    decreases |op.path|
  {
    if |op.path| == 1 {
      InverseLeafUndoes(doc, op.path[0], op);
    } else if op.path != [] {
      var tok, inner := op.path[0], op.(path := op.path[1..]);
      var child := Step(doc, tok).value;
      InverseUndoes(child, inner);
      var inv, after := Inverse(child, inner), Apply(child, inner).value;
      assert ([tok] + inv.path)[1..] == inv.path;
      PutChildTwice(doc, tok, after);
    }
  }

  lemma PutChildTwice(v: Value, tok: string, child: Value)
    requires Step(v, tok).Some?
    ensures Step(PutChild(v, tok, child), tok) == Some(child)
    ensures PutChild(PutChild(v, tok, child), tok, Step(v, tok).value) == v
  {
    if v.Obj? {
      assert v.members[tok := child][tok := v.members[tok]] == v.members;
    } else {
      var i := Index(tok).value;
      assert v.items[i := child][i := v.items[i]] == v.items;
    }
  }

  lemma {:induction false} ApplyAllAppend(doc: Value, ops: seq<PatchOp>, last: PatchOp)
    ensures ApplyAll(doc, ops + [last]) ==
            if ApplyAll(doc, ops).None? then None else Apply(ApplyAll(doc, ops).value, last)
    decreases |ops|
  {
    var all := ops + [last];
    if ops == [] {
      assert all[1..] == [];
    } else {
      assert all[1..] == ops[1..] + [last];
      if Apply(doc, ops[0]).Some? { ApplyAllAppend(Apply(doc, ops[0]).value, ops[1..], last); }
    }
  }

  /** The inverse list takes the edited document back to the one before. */
  lemma {:induction false} InverseAllUndoes(doc: Value, ops: seq<PatchOp>)
    requires ApplyAll(doc, ops).Some?
    ensures ApplyAll(ApplyAll(doc, ops).value, InverseAll(doc, ops)) == Some(doc)
    decreases |ops|
  {
    if ops != [] {
      var next := Apply(doc, ops[0]).value;
      InverseAllUndoes(next, ops[1..]);
      InverseUndoes(doc, ops[0]);
      ApplyAllAppend(ApplyAll(doc, ops).value, InverseAll(next, ops[1..]), Inverse(doc, ops[0]));
    }
  }
}
