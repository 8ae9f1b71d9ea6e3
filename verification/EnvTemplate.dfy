/** `${VAR}` expansion of configuration strings (wormhole-vaa-api/src/config.rs). */
module EnvTemplate {
  import opened Wrappers
  import opened Text

  datatype EnvError = UnterminatedEnv(raw: string) | MissingEnv(name: string)

  /** A configuration string read as literal text and variable references. */
  datatype Piece = Piece(literal: string, name: string)
  datatype End = Closed(tail: string) | Open(literal: string, after: string)
  datatype Template = Template(pieces: seq<Piece>, end: End)

  predicate WellFormed(t: Template) {
    && (forall i :: 0 <= i < |t.pieces| ==> !Occurs(t.pieces[i].literal, "${") && !Occurs(t.pieces[i].name, "}"))
    && match t.end
       case Closed(tail) => !Occurs(tail, "${")
       case Open(literal, after) => !Occurs(literal, "${") && !Occurs(after, "}")
  }

  function RenderEnd(e: End): string {
    match e
    case Closed(tail) => tail
    case Open(literal, after) => literal + ("${" + after)
  }

  /** The text a template stands for. */
  function Render(t: Template): string
    decreases |t.pieces|
  {
    if t.pieces == [] then RenderEnd(t.end)
    else t.pieces[0].literal + ("${" + (t.pieces[0].name + ("}" + Render(t.(pieces := t.pieces[1..])))))
  }

  /** The meaning of a template: literals and values concatenated once; the first problem from the left is the error. */
  function Eval(raw: string, t: Template, env: map<string, string>): Result<string, EnvError>
    decreases |t.pieces|
  {
    if t.pieces == [] then
      match t.end
      case Closed(tail) => Ok(tail)
      case Open(_, _) => Err(UnterminatedEnv(raw))
    else if t.pieces[0].name !in env then Err(MissingEnv(t.pieces[0].name))
    else Prepend(t.pieces[0].literal + env[t.pieces[0].name], Eval(raw, t.(pieces := t.pieces[1..]), env))
  }

  function Prepend(s: string, r: Result<string, EnvError>): Result<string, EnvError> {
    match r case Ok(v) => Ok(s + v) case Err(e) => Err(e)
  }

  /** Reads a string as a template, left to right. */
  function Decompose(raw: string): Template
    decreases |raw|
  {
    match Find(raw, "${")
    case None => Template([], Closed(raw))
    case Some(start) =>
      var after := raw[start + 2..];
      match Find(after, "}")
      case None => Template([], Open(raw[..start], after))
      case Some(end) =>
        var rest := Decompose(after[end + 1..]);
        rest.(pieces := [Piece(raw[..start], after[..end])] + rest.pieces)
  }

  function Expand(raw: string, env: map<string, string>): Result<string, EnvError> {
    Eval(raw, Decompose(raw), env)
  }

  lemma DecomposeStep(raw: string, start: nat, end: nat)
    requires Find(raw, "${") == Some(start) && Find(raw[start + 2..], "}") == Some(end)
    ensures var rest := Decompose(raw[start + 2..][end + 1..]);
            Decompose(raw) == Template([Piece(raw[..start], raw[start + 2..][..end])] + rest.pieces, rest.end)
  {
  }

  lemma EvalMissing(raw: string, p: Piece, rest: Template, env: map<string, string>)
    requires p.name !in env
    ensures Eval(raw, Template([p] + rest.pieces, rest.end), env) == Err(MissingEnv(p.name))
  {
  }

  lemma EvalPiece(raw: string, p: Piece, rest: Template, env: map<string, string>, expanded: string)
    requires p.name in env
    ensures Prepend(expanded, Eval(raw, Template([p] + rest.pieces, rest.end), env))
         == Prepend(expanded + p.literal + env[p.name], Eval(raw, rest, env))
  {
    assert ([p] + rest.pieces)[1..] == rest.pieces;
    var later := Eval(raw, rest, env);
    if later.Ok? {
      assert expanded + ((p.literal + env[p.name]) + later.value) == (expanded + p.literal + env[p.name]) + later.value;
    }
  }

  lemma EvalUnterminated(raw: string, rest: string, start: nat, env: map<string, string>)
    requires Find(rest, "${") == Some(start) && Find(rest[start + 2..], "}").None?
    ensures Eval(raw, Decompose(rest), env) == Err(UnterminatedEnv(raw))
  {
  }

  lemma EvalReference(raw: string, rest: string, start: nat, end: nat, env: map<string, string>, expanded: string)
    requires Find(rest, "${") == Some(start) && Find(rest[start + 2..], "}") == Some(end)
    ensures var name, later := rest[start + 2..][..end], rest[start + 2..][end + 1..];
            Prepend(expanded, Eval(raw, Decompose(rest), env)) ==
            if name in env then Prepend(expanded + rest[..start] + env[name], Eval(raw, Decompose(later), env))
            else Err(MissingEnv(name))
  {
    var name, later := rest[start + 2..][..end], rest[start + 2..][end + 1..];
    DecomposeStep(rest, start, end);
    if name in env {
      EvalPiece(raw, Piece(rest[..start], name), Decompose(later), env, expanded);
    } else {
      EvalMissing(raw, Piece(rest[..start], name), Decompose(later), env);
    }
  }

  lemma PrependNothing(r: Result<string, EnvError>)
    ensures Prepend("", r) == r
  {
    if r.Ok? { assert "" + r.value == r.value; }
  }

  method ExpandEnv(raw: string, env: map<string, string>) returns (r: Result<string, EnvError>)
    ensures r == Expand(raw, env)
  {
    var expanded, rest := "", raw;
    PrependNothing(Expand(raw, env));
    while Find(rest, "${").Some?
      invariant Prepend(expanded, Eval(raw, Decompose(rest), env)) == Expand(raw, env)
      decreases |rest|
    {
      var start := Find(rest, "${").value;
      var after := rest[start + 2..];
      var end := Find(after, "}");
      if end.None? {
        EvalUnterminated(raw, rest, start, env);
        return Err(UnterminatedEnv(raw));
      }
      var name := after[..end.value];
      EvalReference(raw, rest, start, end.value, env, expanded);
      if name !in env { return Err(MissingEnv(name)); }
      expanded := expanded + rest[..start] + env[name];
      rest := after[end.value + 1..];
    }
    return Ok(expanded + rest);
  }

  /** A slice of a string without `pat` has no `pat` either. */
  lemma SliceFreeOf(s: string, pat: string, n: nat)
    requires n <= |s|
    requires forall j: nat :: j < n ==> !OccursAt(s, pat, j)
    requires |pat| > 0
    ensures !Occurs(s[..n], pat)
  {
    forall j: nat | j <= n ensures !OccursAt(s[..n], pat, j) {
      if OccursAt(s[..n], pat, j) {
        assert s[j..j + |pat|] == s[..n][j..j + |pat|];
        assert OccursAt(s, pat, j);
      }
    }
  }

  lemma RenderPiece(p: Piece, rest: Template)
    requires !Occurs(p.literal, "${") && !Occurs(p.name, "}") && WellFormed(rest)
    ensures WellFormed(Template([p] + rest.pieces, rest.end))
    ensures Render(Template([p] + rest.pieces, rest.end)) == p.literal + ("${" + (p.name + ("}" + Render(rest))))
  {
    assert ([p] + rest.pieces)[1..] == rest.pieces;
  }

  /** Where the first reference of a string sits, and what it leaves on both sides. */
  lemma FirstReference(raw: string, start: nat, end: nat)
    requires Find(raw, "${") == Some(start) && Find(raw[start + 2..], "}") == Some(end)
    ensures !Occurs(raw[..start], "${") && !Occurs(raw[start + 2..][..end], "}")
    ensures raw == raw[..start] + ("${" + (raw[start + 2..][..end] + ("}" + raw[start + 2..][end + 1..])))
  {
    SliceFreeOf(raw, "${", start);
    SplitAtOccurrence(raw, "${", start);
    SliceFreeOf(raw[start + 2..], "}", end);
    SplitAtOccurrence(raw[start + 2..], "}", end);
  }

  lemma LastReference(raw: string, start: nat)
    requires Find(raw, "${") == Some(start)
    ensures !Occurs(raw[..start], "${") && raw == raw[..start] + ("${" + raw[start + 2..])
  {
    SliceFreeOf(raw, "${", start);
    SplitAtOccurrence(raw, "${", start);
  }

  /** Every string is the rendering of the template it is read as. */
  lemma {:induction false} RenderOfDecompose(raw: string)
    ensures WellFormed(Decompose(raw)) && Render(Decompose(raw)) == raw
    decreases |raw|
  {
    match Find(raw, "${")
    case None =>
    case Some(start) =>
      var after := raw[start + 2..];
      match Find(after, "}")
      case None => LastReference(raw, start);
      case Some(end) =>
        FirstReference(raw, start, end);
        RenderOfDecompose(after[end + 1..]);
        DecomposeStep(raw, start, end);
        RenderPiece(Piece(raw[..start], after[..end]), Decompose(after[end + 1..]));
  }

  /** The first marker behind marker-free text is the marker itself. */
  lemma FirstOpening(literal: string, rest: string)
    requires !Occurs(literal, "${")
    ensures Find(literal + ("${" + rest), "${") == Some(|literal|)
  {
    var s := literal + ("${" + rest);
    forall j: nat | j < |literal| ensures !OccursAt(s, "${", j) {
      assert !OccursAt(literal, "${", j);
      if j + 1 < |literal| {
        assert s[j..j + 2] == literal[j..j + 2];
      } else {
        assert s[j..j + 2][1] == s[|literal|] == '$';
      }
    }
    assert OccursAt(s, "${", |literal|);
    FindIs(s, "${", |literal|);
  }

  lemma FirstClosing(name: string, rest: string)
    requires !Occurs(name, "}")
    ensures Find(name + ("}" + rest), "}") == Some(|name|)
  {
    var s := name + ("}" + rest);
    forall j: nat | j < |name| ensures !OccursAt(s, "}", j) {
      assert !OccursAt(name, "}", j);
      assert s[j..j + 1] == name[j..j + 1];
    }
    assert OccursAt(s, "}", |name|);
    FindIs(s, "}", |name|);
  }

  lemma DecomposePiece(p: Piece, rest: string)
    requires !Occurs(p.literal, "${") && !Occurs(p.name, "}")
    ensures Decompose(p.literal + ("${" + (p.name + ("}" + rest))))
         == Template([p] + Decompose(rest).pieces, Decompose(rest).end)
  {
    var inner := p.name + ("}" + rest);
    var raw := p.literal + ("${" + inner);
    FirstOpening(p.literal, inner);
    FirstClosing(p.name, rest);
    assert raw[..|p.literal|] == p.literal;
    assert raw[|p.literal| + 2..] == inner;
    DecomposeStep(raw, |p.literal|, |p.name|);
    assert inner[..|p.name|] == p.name;
    assert inner[|p.name| + 1..] == rest;
  }

  lemma DecomposeOpen(literal: string, after: string)
    requires !Occurs(literal, "${") && !Occurs(after, "}")
    ensures Decompose(literal + ("${" + after)) == Template([], Open(literal, after))
  {
    var raw := literal + ("${" + after);
    FirstOpening(literal, after);
    assert raw[..|literal|] == literal;
    assert raw[|literal| + 2..] == after;
  }

  /** Reading inverts rendering, so a string has only one reading. */
  lemma {:induction false} DecomposeOfRender(t: Template)
    requires WellFormed(t)
    ensures Decompose(Render(t)) == t
    decreases |t.pieces|
  {
    if t.pieces == [] {
      if t.end.Open? { DecomposeOpen(t.end.literal, t.end.after); }
    } else {
      var p, rest := t.pieces[0], t.(pieces := t.pieces[1..]);
      assert t.pieces == [p] + rest.pieces;
      DecomposeOfRender(rest);
      DecomposePiece(p, Render(rest));
    }
  }

  /**
   * Expansion by decomposition: for every well-formed template, expanding its text yields its meaning. In
   * particular values are inserted verbatim and never expanded again.
   */
  lemma ExpansionOfRendering(t: Template, env: map<string, string>)
    requires WellFormed(t)
    ensures Expand(Render(t), env) == Eval(Render(t), t, env)
  {
    DecomposeOfRender(t);
  }

  /** The error cases: expansion succeeds exactly when the text closes every reference and every name is set. */
  lemma {:induction false} SucceedsIff(raw: string, t: Template, env: map<string, string>)
    ensures Eval(raw, t, env).Ok? <==> t.end.Closed? && forall i :: 0 <= i < |t.pieces| ==> t.pieces[i].name in env
    decreases |t.pieces|
  {
    if t.pieces != [] {
      var rest := t.(pieces := t.pieces[1..]);
      SucceedsIff(raw, rest, env);
      assert forall i :: 0 <= i < |rest.pieces| ==> rest.pieces[i] == t.pieces[i + 1];
      assert forall i :: 1 <= i < |t.pieces| ==> t.pieces[i] == rest.pieces[i - 1];
    }
  }

  // ----- Laws of expansion -----

  /** Text without a reference is its own expansion. */
  lemma ExpandText(text: string, env: map<string, string>)
    requires !Occurs(text, "${")
    ensures Expand(text, env) == Ok(text)
  {
  }

  /** An opened reference that is never closed is an error that names the whole text. */
  lemma ExpandOpen(literal: string, after: string, env: map<string, string>)
    requires !Occurs(literal, "${") && !Occurs(after, "}")
    ensures Expand(literal + ("${" + after), env) == Err(UnterminatedEnv(literal + ("${" + after)))
  {
    DecomposeOpen(literal, after);
  }

  /** A reference stands for its variable's value, and the rest of the text is expanded as if it stood alone. */
  lemma ExpandReference(literal: string, name: string, rest: string, env: map<string, string>)
    requires !Occurs(literal, "${") && !Occurs(name, "}")
    ensures var raw := literal + ("${" + (name + ("}" + rest)));
            Expand(raw, env) ==
            if name !in env then Err(MissingEnv(name))
            else match Expand(rest, env)
                 case Ok(value) => Ok(literal + env[name] + value)
                 case Err(MissingEnv(other)) => Err(MissingEnv(other))
                 case Err(UnterminatedEnv(_)) => Err(UnterminatedEnv(raw))
  {
    var raw := literal + ("${" + (name + ("}" + rest)));
    DecomposePiece(Piece(literal, name), rest);
    ExpandPiece(raw, Piece(literal, name), rest, Decompose(rest), env);
  }

  lemma ExpandPiece(raw: string, p: Piece, rest: string, t: Template, env: map<string, string>)
    ensures Eval(raw, Template([p] + t.pieces, t.end), env) ==
            if p.name !in env then Err(MissingEnv(p.name))
            else match Eval(rest, t, env)
                 case Ok(value) => Ok(p.literal + env[p.name] + value)
                 case Err(MissingEnv(other)) => Err(MissingEnv(other))
                 case Err(UnterminatedEnv(_)) => Err(UnterminatedEnv(raw))
  {
    if p.name in env {
      EvalOtherText(raw, rest, t, env);
      var whole := Template([p] + t.pieces, t.end);
      assert whole.(pieces := whole.pieces[1..]) == t;
    } else {
      EvalMissing(raw, p, t, env);
    }
  }

  /** The text a template is evaluated for matters only to the error that names it. */
  lemma {:induction false} EvalOtherText(raw: string, other: string, t: Template, env: map<string, string>)
    ensures Eval(raw, t, env) == match Eval(other, t, env)
                                 case Err(UnterminatedEnv(_)) => Err(UnterminatedEnv(raw))
                                 case r => r
    decreases |t.pieces|
  {
    if t.pieces != [] { EvalOtherText(raw, other, t.(pieces := t.pieces[1..]), env); }
  }
}
