/** `apply_undo` of aggregates.rs: the changefeed's undo operations applied to a document. */
module JsonUndo {
  import opened Wrappers
  import opened Collections
  import opened Text
  import opened Json
  import TextPatch

  datatype UndoError =
    | NotReversible | PathMissing | BadIndex | IndexOutOfBounds | ThroughScalar | ScalarTarget
    | NotText | NoPatch | Text(error: TextPatch.PatchError)

  type Undone = Result<Value, UndoError>

  // ---- pointers, as the code decodes them ----

  /** `str::replace` of the escape `~digit`. */
  function ReplaceEscape(t: string, digit: char, with: char): string
  {
    if |t| < 2 then t
    else if t[0] == '~' && t[1] == digit then [with] + ReplaceEscape(t[2..], digit, with)
    else [t[0]] + ReplaceEscape(t[1..], digit, with)
  }

  function DecodeToken(t: string): string { ReplaceEscape(ReplaceEscape(t, '1', '/'), '0', '~') }

  function DecodeTokens(parts: seq<string>): (toks: seq<string>)
    ensures |toks| == |parts|
  {
    if parts == [] then [] else [DecodeToken(parts[0])] + DecodeTokens(parts[1..])
  }

  /** Everything before the first slash is skipped, whatever it is. */
  function PathTokens(path: string): seq<string> { DecodeTokens(Split(path, '/')[1..]) }

  // ---- one operation ----

  datatype Op = Op(kind: string, path: string, value: Option<Value>)

  function ReadOp(op: Value): Op
  {
    Op(StrOr(Get(op, "op"), ""), StrOr(Get(op, "path"), ""), Get(op, "value"))
  }

  function Operand(op: Op): Value { if op.value.Some? then op.value.value else Null }

  function Unpatched(slot: Option<Value>, op: Op): Undone
  {
    var cur, patch := AsStr(slot), AsStr(op.value);
    if cur.None? then Err(NotText)
    else if patch.None? then Err(NoPatch)
    else
      match TextPatch.Unpatch(cur.value, patch.value)
      case Err(e) => Err(Text(e))
      case Ok(s) => Ok(Str(s))
  }

  function EditMember(m: map<string, Value>, key: string, op: Op): Undone
  {
    if op.kind == "remove" then Ok(Obj(m - {key}))
    else if op.kind == "change" then
      match Unpatched(if key in m then Some(m[key]) else None, op)
      case Err(e) => Err(e)
      case Ok(v) => Ok(Obj(m[key := v]))
    else Ok(Obj(m[key := Operand(op)]))
  }

  function EditItem(a: seq<Value>, tok: string, op: Op): Undone
  {
    var i := if tok == "-" then Some(|a|) else ParseUsize(tok);
    if i.None? then Err(BadIndex)
    else if op.kind == "replace" then
      if i.value < |a| then Ok(Arr(a[i.value := Operand(op)])) else Err(IndexOutOfBounds)
    else if op.kind == "change" then
      match Unpatched(if i.value < |a| then Some(a[i.value]) else None, op)
      case Err(e) => Err(e)
      case Ok(v) => Ok(Arr(a[i.value := v]))
    else if op.kind == "add" then Ok(Arr(InsertAt(a, if i.value < |a| then i.value else |a|, Operand(op))))
    else Ok(Arr(if i.value < |a| then DeleteAt(a, i.value) else a))
  }

  function EditLeaf(target: Value, tok: string, op: Op): Undone
  {
    match target
    case Obj(m) => EditMember(m, tok, op)
    case Arr(a) => EditItem(a, tok, op)
    case _ => Err(ScalarTarget)
  }

  /** The value one path step down. */
  function Child(v: Value, tok: string): Undone
  {
    match v
    case Obj(m) => if tok in m then Ok(m[tok]) else Err(PathMissing)
    case Arr(a) =>
      var i := ParseUsize(tok);
      if i.None? then Err(BadIndex) else if i.value < |a| then Ok(a[i.value]) else Err(IndexOutOfBounds)
    case _ => Err(ThroughScalar)
  }

  /** `v` with that child replaced: what writing through the `&mut` reference does to the parent. */
  function WithChild(v: Value, tok: string, child: Value): Value
    requires Child(v, tok).Ok?
  {
    if v.Obj? then Obj(v.members[tok := child]) else Arr(v.items[ParseUsize(tok).value := child])
  }

  function EditAt(v: Value, toks: seq<string>, op: Op): Undone
    requires toks != []
    decreases |toks|
  {
    if |toks| == 1 then EditLeaf(v, toks[0], op)
    else
      match Child(v, toks[0])
      case Err(e) => Err(e)
      case Ok(child) =>
        match EditAt(child, toks[1..], op)
        case Err(e) => Err(e)
        case Ok(edited) => Ok(WithChild(v, toks[0], edited))
  }

  predicate Reversible(kind: string) { kind == "replace" || kind == "add" || kind == "remove" || kind == "change" }

  function UndoOne(doc: Value, op: Op): Undone
  {
    if !Reversible(op.kind) then Err(NotReversible)
    else
      var toks := PathTokens(op.path);
      if toks == [] then Ok(Operand(op)) else EditAt(doc, toks, op)
  }

  function Undo(doc: Value, ops: seq<Value>): Undone
    decreases |ops|
  {
    if ops == [] then Ok(doc)
    else
      match UndoOne(doc, ReadOp(ops[0]))
      case Err(e) => Err(e)
      case Ok(next) => Undo(next, ops[1..])
  }

  // ---- the code's loops: walk the parents down, edit, and the document has changed ----

  /** The document rebuilt around an edited descendant. */
  function Rebuild(spine: seq<Value>, toks: seq<string>, v: Value): Value
    requires |spine| == |toks| && Descends(spine, toks)
    decreases |spine|
  {
    if spine == [] then v
    else Rebuild(spine[..|spine| - 1], toks[..|toks| - 1], WithChild(spine[|spine| - 1], toks[|toks| - 1], v))
  }

  predicate Descends(spine: seq<Value>, toks: seq<string>)
    requires |spine| == |toks|
  {
    forall i :: 0 <= i < |spine| ==> Child(spine[i], toks[i]).Ok?
  }

  /** A descendant's outcome seen from the document. */
  function Lift(r: Undone, spine: seq<Value>, toks: seq<string>): Undone
    requires |spine| == |toks| && Descends(spine, toks)
  {
    match r case Err(e) => Err(e) case Ok(v) => Ok(Rebuild(spine, toks, v))
  }

  lemma DescendStep(v: Value, toks: seq<string>, i: nat, op: Op, spine: seq<Value>)
    requires i + 1 < |toks| && |spine| == i && Descends(spine, toks[..i])
    ensures Child(v, toks[i]).Err? ==> EditAt(v, toks[i..], op) == Err(Child(v, toks[i]).error)
    ensures Child(v, toks[i]).Ok? ==>
              && Descends(spine + [v], toks[..i + 1])
              && Lift(EditAt(v, toks[i..], op), spine, toks[..i])
                 == Lift(EditAt(Child(v, toks[i]).value, toks[i + 1..], op), spine + [v], toks[..i + 1])
  {
    hide Child, WithChild, EditLeaf;
    assert toks[i..][0] == toks[i] && toks[i..][1..] == toks[i + 1..];
    assert toks[..i + 1] == toks[..i] + [toks[i]];
    assert (spine + [v])[..i] == spine && toks[..i + 1][..i] == toks[..i];
  }

  lemma LeafStep(v: Value, toks: seq<string>, op: Op)
    requires toks != []
    ensures EditAt(v, toks[|toks| - 1..], op) == EditLeaf(v, toks[|toks| - 1], op)
  {}

  /** One operation with the code's walk: down the parents, edit the last container, and the
      document around it has changed (on values, the visited containers carry the edit up). */
  method UndoOp(doc: Value, op: Op) returns (r: Undone)
    ensures r == UndoOne(doc, op)
  {
    if !Reversible(op.kind) { return Err(NotReversible); }
    var toks := PathTokens(op.path);
    if toks == [] { return Ok(Operand(op)); }
    hide EditLeaf, Child, WithChild, EditAt, PathTokens, Rebuild;
    var cur, i := doc, 0;
    var spine: seq<Value> := [];
    LiftNothing(EditAt(doc, toks, op));
    assert toks[0..] == toks && toks[..0] == [];
    while i + 1 < |toks|
      invariant 0 <= i < |toks| && |spine| == i
      invariant Descends(spine, toks[..i])
      invariant EditAt(doc, toks, op) == Lift(EditAt(cur, toks[i..], op), spine, toks[..i])
    {
      DescendStep(cur, toks, i, op, spine);
      var child := Child(cur, toks[i]);
      if child.Err? { return Err(child.error); }
      spine := spine + [cur];
      cur := child.value;
      i := i + 1;
    }
    LeafStep(cur, toks, op);
    var edited := EditLeaf(cur, toks[i], op);
    if edited.Err? { return Err(edited.error); }
    var v, k := edited.value, i;
    assert spine[..i] == spine && toks[..i][..i] == toks[..i];
    while k > 0
      invariant 0 <= k <= i && Descends(spine[..k], toks[..k])
      invariant Rebuild(spine[..k], toks[..k], v) == Rebuild(spine, toks[..i], edited.value)
    {
      RebuildStep(spine[..k], toks[..k], v);
      assert spine[..k][..k - 1] == spine[..k - 1] && toks[..k][..k - 1] == toks[..k - 1];
      v := WithChild(spine[k - 1], toks[k - 1], v);
      k := k - 1;
    }
    RebuildNothing(v);
    return Ok(v);
  }

  lemma LiftNothing(r: Undone)
    ensures Lift(r, [], []) == r
  {}

  lemma RebuildNothing(v: Value)
    ensures Rebuild([], [], v) == v
  {}

  lemma RebuildStep(spine: seq<Value>, toks: seq<string>, v: Value)
    requires |spine| == |toks| > 0 && Descends(spine, toks)
    ensures var n := |spine| - 1;
            && Child(spine[n], toks[n]).Ok? && Descends(spine[..n], toks[..n])
            && Rebuild(spine, toks, v) == Rebuild(spine[..n], toks[..n], WithChild(spine[n], toks[n], v))
  {}

  /** `apply_undo`: the operations in order on a copy of the current document. */
  method ApplyUndo(current: Value, ops: seq<Value>) returns (r: Undone)
    ensures r == Undo(current, ops)
  {
    var doc := current;
    assert ops[0..] == ops;
    for i := 0 to |ops|
      invariant Undo(current, ops) == Undo(doc, ops[i..])
    {
      var next := UndoOp(doc, ReadOp(ops[i]));
      assert ops[i..][1..] == ops[i + 1..];
      if next.Err? { return Err(next.error); }
      doc := next.value;
    }
    return Ok(doc);
  }
}
