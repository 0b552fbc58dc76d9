/** The text a package hash is computed over. A collision-free hash is modelled
    as a free constructor, so its digests are symbols of the text in their own
    right; everything else is written out as characters. */
module HashText {

  datatype Sym = Ch(c: char) | Dig(d: Digest)

  /** The digest of a text. */
  datatype Digest = Sum(text: seq<Sym>)

  type Line = seq<Sym>

  function Text(s: string): (r: seq<Sym>)
    ensures |r| == |s|
    ensures forall i :: 0 <= i < |s| ==> r[i] == Ch(s[i])
  {
    seq(|s|, i requires 0 <= i < |s| => Ch(s[i]))
  }

  lemma TextInjective(s: string, t: string)
    requires Text(s) == Text(t)
    ensures s == t
  {
    assert forall i :: 0 <= i < |s| ==> Text(s)[i] == Text(t)[i];
  }

  const NEWLINE := Ch('\n')

  function Flat(lines: seq<Line>): seq<Sym> {
    if lines == [] then [] else Flat(lines[..|lines| - 1]) + lines[|lines| - 1] + [NEWLINE]
  }

  ghost predicate OneLine(s: string) { '\n' !in s }

  ghost predicate NewlineFree(lines: seq<Line>) {
    forall i :: 0 <= i < |lines| ==> NEWLINE !in lines[i]
  }

  lemma {:induction false} FlatConcat(a: seq<Line>, b: seq<Line>)
    ensures Flat(a + b) == Flat(a) + Flat(b)
  {
    if b == [] {
      assert a + b == a;
    } else {
      var init, last := b[..|b| - 1], b[|b| - 1];
      FlatConcat(a, init);
      assert (a + b)[..|a + b| - 1] == a + init;
      assert Flat(a + b) == Flat(a) + Flat(init) + last + [NEWLINE];
      assert Flat(b) == Flat(init) + last + [NEWLINE];
      hide Flat;
    }
  }

  lemma SplitAtNewline(a: seq<Sym>, x: Line, b: seq<Sym>, y: Line)
    requires a + x == b + y && NEWLINE !in x && NEWLINE !in y
    requires a == [] || a[|a| - 1] == NEWLINE
    requires b == [] || b[|b| - 1] == NEWLINE
    ensures a == b && x == y
  {
    var s := a + x;
    assert forall i :: |a| <= i < |s| ==> s[i] == x[i - |a|];
    assert forall i :: |b| <= i < |s| ==> s[i] == y[i - |b|];
    assert a == s[..|a|] && b == (b + y)[..|b|];
    assert x == s[|a|..] && y == (b + y)[|b|..];
  }

  lemma FlatEnds(lines: seq<Line>)
    ensures Flat(lines) == [] <==> lines == []
    ensures lines != [] ==> Flat(lines)[|Flat(lines)| - 1] == NEWLINE
  {
  }

  /** The lines of a text can be read back from it. */
  lemma {:induction false} FlatInjective(a: seq<Line>, b: seq<Line>)
    requires Flat(a) == Flat(b) && NewlineFree(a) && NewlineFree(b)
    ensures a == b
  {
    FlatEnds(a);
    FlatEnds(b);
    if a != [] {
      var a', x, b', y := a[..|a| - 1], a[|a| - 1], b[..|b| - 1], b[|b| - 1];
      FlatEnds(a');
      FlatEnds(b');
      assert Flat(a') + x == Flat(a)[..|Flat(a)| - 1];
      assert Flat(b') + y == Flat(b)[..|Flat(b)| - 1];
      SplitAtNewline(Flat(a'), x, Flat(b'), y);
      FlatInjective(a', b');
      assert a == a' + [x] && b == b' + [y];
    }
  }

  // ----- The four kinds of lines

  function PathLine(path: string): Line { Text("pkgpath ") + Text(path) }
  function BuildLine(id: string): Line { Text("buildid ") + Text(id) }
  function FileLine(name: string, d: Digest): Line { Text("file ") + Text(name) + Text(" ") + [Dig(d)] }
  function ImportLine(path: string, d: Digest): Line { Text("import ") + Text(path) + Text(" ") + [Dig(d)] }

  ghost predicate IsImport(l: Line) { l != [] && l[0] == Ch('i') }

  lemma TextNewlineFree(s: string)
    requires OneLine(s)
    ensures NEWLINE !in Text(s)
  {
  }

  lemma LinesNewlineFree(s: string, d: Digest)
    requires OneLine(s)
    ensures NEWLINE !in PathLine(s) && NEWLINE !in BuildLine(s)
    ensures NEWLINE !in FileLine(s, d) && NEWLINE !in ImportLine(s, d)
  {
    TextNewlineFree(s);
    TextNewlineFree("pkgpath ");
    TextNewlineFree("buildid ");
    TextNewlineFree("file ");
    TextNewlineFree("import ");
    TextNewlineFree(" ");
  }

  lemma SuffixInjective(prefix: seq<Sym>, s: string, t: string)
    requires prefix + Text(s) == prefix + Text(t)
    ensures s == t
  {
    assert Text(s) == (prefix + Text(s))[|prefix|..];
    assert Text(t) == (prefix + Text(t))[|prefix|..];
    TextInjective(s, t);
  }

  lemma DigestLineInjective(prefix: seq<Sym>, s: string, d: Digest, t: string, e: Digest)
    requires prefix + Text(s) + Text(" ") + [Dig(d)] == prefix + Text(t) + Text(" ") + [Dig(e)]
    ensures s == t && d == e
  {
    var l, m := prefix + Text(s) + Text(" ") + [Dig(d)], prefix + Text(t) + Text(" ") + [Dig(e)];
    assert l[|l| - 1] == Dig(d) && m[|m| - 1] == Dig(e);
    assert prefix + Text(s) == l[..|l| - 2] && prefix + Text(t) == m[..|m| - 2];
    SuffixInjective(prefix, s, t);
  }
}
