/** A Python f-string as a sequence of literal text and substituted values.

    `Render` concatenates the pieces. The facts proved here are what the prompt
    lemmas rely on: every substituted value appears verbatim in the rendered text,
    in template order. */
module Templates {
  import opened Strings

  datatype Piece = Lit(text: string) | Hole(value: string)

  function PieceText(p: Piece): string {
    match p
    case Lit(t) => t
    case Hole(v) => v
  }

  function Render(t: seq<Piece>): string
    decreases |t|
  {
    if |t| == 0 then "" else PieceText(t[0]) + Render(t[1..])
  }

  /** The substituted values of a template, in order. */
  function Holes(t: seq<Piece>): seq<string>
    decreases |t|
  {
    if |t| == 0 then []
    else if t[0].Hole? then [t[0].value] + Holes(t[1..])
    else Holes(t[1..])
  }

  /** The strings `vs` occur in `p` one after another, without overlapping. */
  predicate InOrder(p: string, vs: seq<string>)
    decreases |vs|
  {
    |vs| == 0 ||
    exists i: nat | i <= |p| :: Occurs(p, vs[0], i) && InOrder(p[i + |vs[0]|..], vs[1..])
  }

  lemma {:induction false} InOrderExtendLeft(x: string, p: string, vs: seq<string>)
    requires InOrder(p, vs)
    ensures InOrder(x + p, vs)
  {
    if |vs| > 0 {
      var i: nat :| i <= |p| && Occurs(p, vs[0], i) && InOrder(p[i + |vs[0]|..], vs[1..]);
      var j := |x| + i;
      assert (x + p)[j..j + |vs[0]|] == p[i..i + |vs[0]|];
      assert (x + p)[j + |vs[0]|..] == p[i + |vs[0]|..];
      assert Occurs(x + p, vs[0], j);
    }
  }

  /** Every substituted value appears verbatim in the rendered text, in template order. */
  lemma {:induction false} RenderKeepsHolesInOrder(t: seq<Piece>)
    ensures InOrder(Render(t), Holes(t))
    decreases |t|
  {
    if |t| > 0 {
      RenderKeepsHolesInOrder(t[1..]);
      var rest := Render(t[1..]);
      match t[0]
      case Lit(s) =>
        InOrderExtendLeft(s, rest, Holes(t[1..]));
      case Hole(v) =>
        var p := v + rest;
        var vs := Holes(t);
        assert Render(t) == p;
        assert vs[0] == v && vs[1..] == Holes(t[1..]);
        assert p[0..|v|] == v;
        assert p[0 + |vs[0]|..] == rest;
        assert Occurs(p, vs[0], 0) && InOrder(p[0 + |vs[0]|..], vs[1..]);
    }
  }

  /** Text between two fixed parts changes the whole exactly when it is non-empty. */
  lemma MiddleMatters(x: string, y: string, z: string)
    ensures x + y + z == x + z <==> y == ""
  {
    if x + y + z == x + z {
      assert |x + y + z| == |x + z|;
    }
  }

  lemma RenderAppend(a: seq<Piece>, b: seq<Piece>)
    ensures Render(a + b) == Render(a) + Render(b)
    ensures Holes(a + b) == Holes(a) + Holes(b)
    decreases |a|
  {
    if |a| > 0 {
      assert (a + b)[1..] == a[1..] + b;
      RenderAppend(a[1..], b);
    } else {
      assert a + b == b;
    }
  }

  /** Literal text and values alternating, starting and ending with literal text. */
  function Interleave(lits: seq<string>, values: seq<string>): seq<Piece>
    requires |lits| == |values| + 1
    decreases |values|
  {
    if |values| == 0 then [Lit(lits[0])]
    else [Lit(lits[0]), Hole(values[0])] + Interleave(lits[1..], values[1..])
  }

  lemma {:induction false} InterleaveParts(lits: seq<string>, values: seq<string>)
    requires |lits| == |values| + 1
    ensures Holes(Interleave(lits, values)) == values
    decreases |values|
  {
    var t := Interleave(lits, values);
    if |values| == 0 {
      assert t[1..] == [];
      assert lits[1..] == [];
    } else {
      InterleaveParts(lits[1..], values[1..]);
      var rest := Interleave(lits[1..], values[1..]);
      assert t[1..] == [Hole(values[0])] + rest;
      assert t[1..][1..] == rest;
      assert values == [values[0]] + values[1..];
    }
  }
}
