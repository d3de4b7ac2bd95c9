/** `parse_ops`: the `key=value;key` batch of the write example. */
module BatchOps {
  import opened Wrappers
  import opened Text

  datatype WriteOp = Set(key: string, value: string) | Del(key: string)

  datatype ParseError = NoOps

  const SEP: char := ';'
  const EQ: char := '='

  /** One non-empty segment: a SET at the first `=`, a DEL without one. */
  function ParseOp(seg: string): WriteOp {
    var i := IndexOf(seg, EQ);
    if i == |seg| then Del(seg) else Set(seg[..i], seg[i + 1..])
  }

  function OpsOf(segs: seq<string>): seq<WriteOp> {
    if segs == [] then []
    else (if segs[0] == "" then [] else [ParseOp(segs[0])]) + OpsOf(segs[1..])
  }

  function ParseOps(spec: string): Result<seq<WriteOp>, ParseError> {
    var ops := OpsOf(Split(spec, SEP));
    if ops == [] then Err(NoOps) else Ok(ops)
  }

  /** The batch a caller would type for these ops. */
  function Render(op: WriteOp): string {
    match op
    case Set(key, value) => key + [EQ] + value
    case Del(key) => key
  }

  function RenderEach(ops: seq<WriteOp>): (r: seq<string>)
    ensures |r| == |ops| && forall i | 0 <= i < |ops| :: r[i] == Render(ops[i])
  {
    seq(|ops|, i requires 0 <= i < |ops| => Render(ops[i]))
  }

  function RenderOps(ops: seq<WriteOp>): string {
    Join(RenderEach(ops), SEP)
  }

  /** An op the batch syntax can carry. */
  ghost predicate Writable(op: WriteOp) {
    match op
    case Set(key, value) => Free(key, SEP) && Free(key, EQ) && Free(value, SEP)
    case Del(key) => key != "" && Free(key, SEP) && Free(key, EQ)
  }

  ghost predicate AllWritable(ops: seq<WriteOp>) {
    forall i | 0 <= i < |ops| :: Writable(ops[i])
  }

  lemma RenderedParses(op: WriteOp)
    requires Writable(op)
    ensures Render(op) != "" && Free(Render(op), SEP) && ParseOp(Render(op)) == op
  {
    match op
    case Set(key, value) => FreePrefix(key, EQ, value);
    case Del(key) => FreePrefix(key, EQ, "");
  }

  lemma {:induction false} SegmentsParse(segs: seq<string>, ops: seq<WriteOp>)
    requires |segs| == |ops| && AllWritable(ops)
    requires forall i | 0 <= i < |ops| :: segs[i] == Render(ops[i])
    ensures OpsOf(segs) == ops
  {
    if ops != [] {
      RenderedParses(ops[0]);
      SegmentsParse(segs[1..], ops[1..]);
    }
  }

  lemma {:induction false} ParsedWritable(segs: seq<string>)
    requires AllFree(segs, SEP)
    ensures AllWritable(OpsOf(segs))
  {
    if segs != [] {
      ParsedWritable(segs[1..]);
      var op := ParseOp(segs[0]);
      assert segs[0] != "" ==> Writable(op);
    }
  }

  /** Parsing gives a rendered batch back exactly when it is non-empty and every
      op can be written in the syntax. */
  lemma ParseUndoesRender(ops: seq<WriteOp>)
    ensures ParseOps(RenderOps(ops)) == Ok(ops) <==> ops != [] && AllWritable(ops)
  {
    if ops != [] && AllWritable(ops) {
      var segs := RenderEach(ops);
      forall i | 0 <= i < |ops| ensures Free(segs[i], SEP) { RenderedParses(ops[i]); }
      SplitOfJoin(segs, SEP);
      SegmentsParse(segs, ops);
    }
    if ParseOps(RenderOps(ops)) == Ok(ops) {
      SplitPartsFree(RenderOps(ops), SEP);
      ParsedWritable(Split(RenderOps(ops), SEP));
    }
  }

  /** Any accepted text may be rendered and parsed again with nothing lost. */
  lemma ReparseIsStable(spec: string)
    requires ParseOps(spec).Ok?
    ensures ParseOps(RenderOps(ParseOps(spec).value)) == ParseOps(spec)
  {
    SplitPartsFree(spec, SEP);
    ParsedWritable(Split(spec, SEP));
    ParseUndoesRender(ParseOps(spec).value);
  }

  lemma {:induction false} OpsOfAppend(a: seq<string>, b: seq<string>)
    ensures OpsOf(a + b) == OpsOf(a) + OpsOf(b)
  {
    if a == [] {
      assert a + b == b;
    } else {
      assert (a + b)[1..] == a[1..] + b;
      OpsOfAppend(a[1..], b);
    }
  }

  /** Batches concatenate: joined at a `;`, the ops of the second follow the ops
      of the first. */
  lemma BatchesConcatenate(a: string, b: string)
    ensures OpsOf(Split(a + [SEP] + b, SEP)) == OpsOf(Split(a, SEP)) + OpsOf(Split(b, SEP))
  {
    SplitAround(a, SEP, b);
    OpsOfAppend(Split(a, SEP), Split(b, SEP));
  }

  /** So a stray `;` at either end changes nothing. */
  lemma StraySeparatorHarmless(a: string)
    ensures ParseOps(a + [SEP]) == ParseOps(a) && ParseOps([SEP] + a) == ParseOps(a)
  {
    var none, ops := OpsOf(Split("", SEP)), OpsOf(Split(a, SEP));
    var segs := Split("", SEP);
    assert |segs| == 1 && segs[0] == "";
    assert none == OpsOf(segs[1..]) == [];
    BatchesConcatenate(a, "");
    BatchesConcatenate("", a);
    assert a + [SEP] + "" == a + [SEP] && "" + [SEP] + a == [SEP] + a;
    assert ops + none == ops && none + ops == ops;
  }

  /** One segment: what is left of its first `=` is the key, what is right of it the
      value; without one it is a deletion. */
  lemma SegmentMeans(key: string, value: string)
    requires Free(key, '=') && Free(key, ';') && Free(value, ';')
    ensures ParseOps(key + "=" + value) == Ok([Set(key, value)])
    ensures key != "" ==> ParseOps(key) == Ok([Del(key)])
  {
    ParseUndoesRender([Set(key, value)]);
    assert RenderEach([Set(key, value)]) == [key + "=" + value];
    ParseUndoesRender([Del(key)]);
    assert RenderEach([Del(key)]) == [key];
  }

  predicate Blank(segs: seq<string>) {
    forall i | 0 <= i < |segs| :: segs[i] == ""
  }

  predicate AllAre(s: string, c: char) {
    forall i | 0 <= i < |s| :: s[i] == c
  }

  lemma BlankCons(seg: string, rest: seq<string>)
    ensures Blank([seg] + rest) <==> seg == "" && Blank(rest)
  {
    assert ([seg] + rest)[0] == seg;
    assert forall i | 0 <= i < |rest| :: ([seg] + rest)[i + 1] == rest[i];
  }

  lemma AllAreAround(a: string, c: char, b: string)
    requires Free(a, c)
    ensures AllAre(a + [c] + b, c) <==> a == "" && AllAre(b, c)
  {
    var s := a + [c] + b;
    assert forall i | 0 <= i < |b| :: s[|a| + 1 + i] == b[i];
    assert a != "" ==> s[0] == a[0];
  }

  lemma {:induction false} NoOpsIff(segs: seq<string>)
    ensures OpsOf(segs) == [] <==> Blank(segs)
  {
    if segs != [] {
      NoOpsIff(segs[1..]);
      BlankCons(segs[0], segs[1..]);
      assert [segs[0]] + segs[1..] == segs;
    }
  }

  lemma {:induction false} BlankSegmentsIff(spec: string)
    ensures Blank(Split(spec, SEP)) <==> AllAre(spec, SEP)
    decreases |spec|
  {
    var i := IndexOf(spec, SEP);
    if i < |spec| {
      var head, rest := spec[..i], spec[i + 1..];
      BlankSegmentsIff(rest);
      BlankCons(head, Split(rest, SEP));
      assert spec == head + [SEP] + rest;
      AllAreAround(head, SEP, rest);
    } else {
      BlankCons(spec, []);
      assert [spec] + [] == [spec];
      assert spec != "" ==> spec[0] != SEP;
    }
  }

  /** A text is refused exactly when nothing but separators is in it. */
  lemma RefusedIff(spec: string)
    ensures ParseOps(spec).Err? <==> forall i | 0 <= i < |spec| :: spec[i] == ';'
  {
    NoOpsIff(Split(spec, SEP));
    BlankSegmentsIff(spec);
    assert AllAre(spec, ';') <==> ParseOps(spec).Err?;
  }
}
