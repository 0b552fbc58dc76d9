/** Splitting a string into fields with optional quotes, and joining fields
    into such a string. Strings are sequences of bytes, written as characters. */
module Quoted {
  import opened Options

  predicate IsSpaceByte(c: char) { c == ' ' || c == '\t' || c == '\n' || c == '\r' }

  predicate IsQuote(c: char) { c == '"' || c == '\'' }

  // ----- Splitting

  /** The position of the first `c`, or the length. */
  function IndexOf(s: string, c: char): (i: nat)
    ensures i <= |s| && (i < |s| ==> s[i] == c)
    ensures forall j :: 0 <= j < i ==> s[j] != c
  {
    if s == [] || s[0] == c then 0 else 1 + IndexOf(s[1..], c)
  }

  function IndexOfSpace(s: string): (i: nat)
    ensures i <= |s| && (i < |s| ==> IsSpaceByte(s[i]))
    ensures forall j :: 0 <= j < i ==> !IsSpaceByte(s[j])
  {
    if s == [] || IsSpaceByte(s[0]) then 0 else 1 + IndexOfSpace(s[1..])
  }

  /** The fields of `s`, or nothing if a quote is not closed. */
  function Fields(s: string): Option<seq<string>>
    decreases |s|
  {
    if s == [] then Some([])
    else if IsSpaceByte(s[0]) then Fields(s[1..])
    else if IsQuote(s[0]) then
      var t := s[1..];
      var i := IndexOf(t, s[0]);
      if i >= |t| then None else Then([t[..i]], Fields(t[i + 1..]))
    else
      var i := IndexOfSpace(s);
      Then([s[..i]], Fields(s[i..]))
  }

  function Then(fields: seq<string>, more: Option<seq<string>>): Option<seq<string>> {
    if more.None? then None else Some(fields + more.value)
  }

  lemma ThenThen(a: seq<string>, b: seq<string>, more: Option<seq<string>>)
    ensures Then(a, Then(b, more)) == Then(a + b, more)
  {
    if more.Some? {
      assert a + (b + more.value) == a + b + more.value;
    }
  }

  lemma UnfoldQuote(s: string, i: nat, f: seq<string>)
    requires s != [] && IsQuote(s[0]) && i == IndexOf(s[1..], s[0])
    ensures i >= |s[1..]| ==> Fields(s).None?
    ensures i < |s[1..]| ==> Then(f, Fields(s)) == Then(f + [s[1..][..i]], Fields(s[1..][i + 1..]))
  {
    if i < |s[1..]| {
      ThenThen(f, [s[1..][..i]], Fields(s[1..][i + 1..]));
    }
  }

  lemma UnfoldBare(s: string, i: nat, f: seq<string>)
    requires s != [] && !IsQuote(s[0]) && !IsSpaceByte(s[0]) && i == IndexOfSpace(s)
    ensures i > 0 && Then(f, Fields(s)) == Then(f + [s[..i]], Fields(s[i..]))
  {
    ThenThen(f, [s[..i]], Fields(s[i..]));
  }

  method Split(input: string) returns (r: Option<seq<string>>)
    ensures r == Fields(input)
  {
    var s := input;
    var f: seq<string> := [];
    assert Then([], Fields(s)) == Fields(s) by {
      if Fields(s).Some? {
        assert [] + Fields(s).value == Fields(s).value;
      }
    }
    assert Fields([]) == Some([]);
    hide Fields, IndexOf, IndexOfSpace;
    while |s| > 0
      invariant Then(f, Fields(s)) == Fields(input)
      decreases |s|
    {
      s := SkipSpaces(s);
      if |s| == 0 {
        break;
      }
      if s[0] == '"' || s[0] == '\'' {
        var quote := s[0];
        ghost var whole := s;
        s := s[1..];
        var i := FindQuote(s, quote);
        UnfoldQuote(whole, i, f);
        if i >= |s| {
          return None;
        }
        f := f + [s[..i]];
        s := s[i + 1..];
        continue;
      }
      var i := FindSpace(s);
      UnfoldBare(s, i, f);
      f := f + [s[..i]];
      s := s[i..];
    }
    assert f + [] == f;
    r := Some(f);
  }

  method SkipSpaces(input: string) returns (s: string)
    ensures |s| <= |input| && Fields(s) == Fields(input) && (s != [] ==> !IsSpaceByte(s[0]))
  {
    s := input;
    while |s| > 0 && IsSpaceByte(s[0])
      invariant |s| <= |input| && Fields(s) == Fields(input)
    {
      s := s[1..];
    }
  }

  method FindQuote(s: string, quote: char) returns (i: nat)
    ensures i == IndexOf(s, quote)
  {
    i := 0;
    while i < |s| && s[i] != quote
      invariant i <= |s| && forall j :: 0 <= j < i ==> s[j] != quote
    {
      i := i + 1;
    }
    IndexUnique(s, quote, i);
  }

  lemma IndexUnique(s: string, c: char, i: nat)
    requires i <= |s| && (forall j :: 0 <= j < i ==> s[j] != c) && (i < |s| ==> s[i] == c)
    ensures i == IndexOf(s, c)
  {
  }

  method FindSpace(s: string) returns (i: nat)
    ensures i == IndexOfSpace(s)
  {
    i := 0;
    while i < |s| && !IsSpaceByte(s[i])
      invariant i <= |s| && forall j :: 0 <= j < i ==> !IsSpaceByte(s[j])
    {
      i := i + 1;
    }
    SpaceUnique(s, i);
  }

  lemma SpaceUnique(s: string, i: nat)
    requires i <= |s| && (forall j :: 0 <= j < i ==> !IsSpaceByte(s[j])) && (i < |s| ==> IsSpaceByte(s[i]))
    ensures i == IndexOfSpace(s)
  {
  }

  // ----- Joining

  predicate HasSpace(arg: string) { exists i :: 0 <= i < |arg| && IsSpaceByte(arg[i]) }

  /** Neither kind of quotes can enclose `arg`. */
  predicate Unquotable(arg: string) { '\'' in arg && '"' in arg }

  function Quote(arg: string): (r: Option<string>)
    ensures r.None? <==> Unquotable(arg)
  {
    if !HasSpace(arg) && '\'' !in arg && '"' !in arg then Some(arg)
    else if '\'' !in arg then Some(['\''] + arg + ['\''])
    else if '"' !in arg then Some(['"'] + arg + ['"'])
    else None
  }

  function Joined(args: seq<string>): Option<string> {
    if args == [] then Some([])
    else
      var n := |args| - 1;
      var before, last := Joined(args[..n]), Quote(args[n]);
      if before.None? || last.None? then None
      else Some(before.value + (if n > 0 then " " else []) + last.value)
  }

  method Join(args: seq<string>) returns (r: Option<string>)
    ensures r == Joined(args)
  {
    var buf: string := [];
    assert args[..0] == [];
    for i := 0 to |args|
      invariant Joined(args[..i]) == Some(buf)
    {
      ghost var before := buf;
      if i > 0 {
        buf := buf + [' '];
      }
      assert args[..i + 1][..i] == args[..i];
      var q := QuoteArg(args[i]);
      if q.None? {
        JoinedFails(args, i);
        return None;
      }
      assert buf == before + if i > 0 then " " else [];
      buf := buf + q.value;
    }
    assert args[..|args|] == args;
    r := Some(buf);
  }

  method QuoteArg(arg: string) returns (r: Option<string>)
    ensures r == Quote(arg)
  {
    var sawSpace, sawSingleQuote, sawDoubleQuote := false, false, false;
    for i := 0 to |arg|
      invariant sawSpace <==> exists j :: 0 <= j < i && IsSpaceByte(arg[j])
      invariant sawSingleQuote <==> '\'' in arg[..i]
      invariant sawDoubleQuote <==> '"' in arg[..i]
    {
      assert arg[..i + 1] == arg[..i] + [arg[i]];
      if arg[i] > 127 as char {
        continue;
      } else if IsSpaceByte(arg[i]) {
        sawSpace := true;
      } else if arg[i] == '\'' {
        sawSingleQuote := true;
      } else if arg[i] == '"' {
        sawDoubleQuote := true;
      }
    }
    assert arg[..|arg|] == arg;
    if !sawSpace && !sawSingleQuote && !sawDoubleQuote {
      r := Some(arg);
    } else if !sawSingleQuote {
      r := Some(['\''] + arg + ['\'']);
    } else if !sawDoubleQuote {
      r := Some(['"'] + arg + ['"']);
    } else {
      r := None;
    }
  }

  lemma {:induction false} JoinedFails(args: seq<string>, i: nat)
    requires i < |args| && Quote(args[i]).None?
    ensures Joined(args).None?
    decreases |args|
  {
    if i < |args| - 1 {
      JoinedFails(args[..|args| - 1], i);
    }
  }

  // ----- The round trip

  lemma QuotedField(q: char, a: string, t: string)
    requires IsQuote(q) && q !in a
    ensures Fields([q] + a + [q] + t) == Then([a], Fields(t))
  {
    var s := [q] + a + [q] + t;
    assert s[1..] == a + [q] + t;
    IndexUnique(s[1..], q, |a|);
    hide IndexOf, Then;
    assert s[1..][..|a|] == a && s[1..][|a| + 1..] == t;
  }

  lemma BareField(a: string, t: string)
    requires a != [] && !IsQuote(a[0]) && forall i :: 0 <= i < |a| ==> !IsSpaceByte(a[i])
    requires t == [] || IsSpaceByte(t[0])
    ensures Fields(a + t) == Then([a], Fields(t))
  {
    var s := a + t;
    SpaceUnique(s, |a|);
    hide IndexOfSpace, IndexOf, Then;
    assert s[..|a|] == a && s[|a|..] == t;
  }

  /** A space ends whatever field comes before it. */
  lemma {:induction false} FieldsConcat(s: string, t: string)
    requires Fields(s).Some?
    ensures Fields(s + " " + t) == Then(Fields(s).value, Fields(t))
    decreases |s|
  {
    if s == [] {
      assert (s + " " + t)[1..] == t;
      assert Fields(t).Some? ==> [] + Fields(t).value == Fields(t).value;
    } else if IsSpaceByte(s[0]) {
      assert (s + " " + t)[1..] == s[1..] + " " + t;
      FieldsConcat(s[1..], t);
    } else if IsQuote(s[0]) {
      var field, rest := FirstQuoted(s);
      FieldsConcat(rest, t);
      QuotedThenMore(s[0], field, rest, t);
    } else {
      var field, rest := FirstBare(s);
      FieldsConcat(rest, t);
      BareThenMore(field, rest, t);
    }
  }

  lemma FirstQuoted(s: string) returns (field: string, rest: string)
    requires s != [] && IsQuote(s[0]) && Fields(s).Some?
    ensures s == [s[0]] + field + [s[0]] + rest && s[0] !in field && Fields(rest).Some?
  {
    var u := s[1..];
    var i := IndexOf(u, s[0]);
    assert i < |u|;
    field, rest := u[..i], u[i + 1..];
    assert u == field + [s[0]] + rest;
  }

  lemma FirstBare(s: string) returns (field: string, rest: string)
    requires s != [] && !IsQuote(s[0]) && !IsSpaceByte(s[0]) && Fields(s).Some?
    ensures s == field + rest && field != [] && field[0] == s[0] && Fields(rest).Some?
    ensures (forall i :: 0 <= i < |field| ==> !IsSpaceByte(field[i])) && (rest == [] || IsSpaceByte(rest[0]))
  {
    var i := IndexOfSpace(s);
    field, rest := s[..i], s[i..];
  }

  lemma QuotedThenMore(q: char, field: string, rest: string, t: string)
    requires IsQuote(q) && q !in field && Fields(rest).Some?
    requires Fields(rest + " " + t) == Then(Fields(rest).value, Fields(t))
    ensures var s := [q] + field + [q] + rest;
            Fields(s).Some? && Fields(s + " " + t) == Then(Fields(s).value, Fields(t))
  {
    QuotedField(q, field, rest);
    QuotedField(q, field, rest + " " + t);
    Regroup([q] + field + [q], rest, t);
    ThenThen([field], Fields(rest).value, Fields(t));
    hide Fields;
  }

  lemma BareThenMore(field: string, rest: string, t: string)
    requires field != [] && !IsQuote(field[0]) && Fields(rest).Some?
    requires (forall i :: 0 <= i < |field| ==> !IsSpaceByte(field[i])) && (rest == [] || IsSpaceByte(rest[0]))
    requires Fields(rest + " " + t) == Then(Fields(rest).value, Fields(t))
    ensures var s := field + rest;
            Fields(s).Some? && Fields(s + " " + t) == Then(Fields(s).value, Fields(t))
  {
    BareField(field, rest);
    assert (rest + " " + t)[0] == if rest == [] then ' ' else rest[0];
    BareField(field, rest + " " + t);
    Regroup(field, rest, t);
    ThenThen([field], Fields(rest).value, Fields(t));
    hide Fields;
  }

  lemma Regroup(a: string, rest: string, t: string)
    ensures a + rest + " " + t == a + (rest + " " + t)
  {
  }

  /** Quoting is undone by splitting, except that an empty argument is lost. */
  lemma FieldsOfQuote(arg: string)
    requires !Unquotable(arg)
    ensures Fields(Quote(arg).value) == Some(if arg == [] then [] else [arg])
  {
    assert Fields([]) == Some([]) && [arg] + [] == [arg];
    if !HasSpace(arg) && '\'' !in arg && '"' !in arg {
      if arg != [] {
        assert arg[0] in arg;
        assert arg + [] == arg;
        BareField(arg, []);
      }
    } else {
      var q := if '\'' !in arg then '\'' else '"';
      assert [q] + arg + [q] + [] == [q] + arg + [q];
      QuotedField(q, arg, []);
    }
  }

  /** A word: not empty, without white space, and not beginning with a quote. */
  ghost predicate IsWord(w: string) {
    && w != [] && w[0] != '"' && w[0] != '\''
    && forall i :: 0 <= i < |w| ==> w[i] != ' ' && w[i] != '\t' && w[i] != '\n' && w[i] != '\r'
  }

  /** A word is one field as it is, and any white space separates two words. */
  lemma WordsAreFields(a: string, b: string, c: char)
    requires IsWord(a) && IsWord(b) && (c == ' ' || c == '\t' || c == '\n' || c == '\r')
    ensures Fields(a) == Some([a]) && Fields(a + [c] + b) == Some([a, b])
  {
    assert Fields([]) == Some([]);
    BareField(a, []);
    BareField(b, []);
    assert a + [] == a && b + [] == b && [a] + [] == [a] && [b] + [] == [b];
    assert ([c] + b)[1..] == b;
    assert Fields([c] + b) == Some([b]);
    hide Fields;
    BareField(a, [c] + b);
    assert a + [c] + b == a + ([c] + b);
    assert [a] + [b] == [a, b];
  }

  /** What is between two equal quotes is one field as it is, whatever it is. */
  lemma QuotesEnclose(q: char, a: string, rest: string)
    requires (q == '"' || q == '\'') && q !in a
    ensures Fields([q] + a + [q] + rest) == Then([a], Fields(rest))
    ensures Fields([q] + a) == None
  {
    QuotedField(q, a, rest);
    assert ([q] + a)[1..] == a;
    IndexUnique(a, q, |a|);
  }

  /** An argument is joined as it is exactly if it holds no white space and no
      quotes, so quotes are added only where they are needed. */
  lemma QuotedOnlyIfNeeded(arg: string)
    ensures Joined([arg]) == Some(arg) <==>
            forall i :: 0 <= i < |arg| ==>
              arg[i] != ' ' && arg[i] != '\t' && arg[i] != '\n' && arg[i] != '\r' && arg[i] != '"' && arg[i] != '\''
  {
    assert Joined([]) == Some([]) && [arg][..0] == [];
    if Quote(arg).Some? {
      var q := Quote(arg).value;
      assert [] + [] + q == q;
      assert Joined([arg]) == Some(q);
      assert q == arg <==> |q| == |arg|;
    }
    if HasSpace(arg) || '"' in arg || '\'' in arg {
      assert exists i :: 0 <= i < |arg| && (IsSpaceByte(arg[i]) || arg[i] == '"' || arg[i] == '\'');
    } else {
      assert forall i :: 0 <= i < |arg| ==> arg[i] in arg;
    }
  }

  function NonEmpty(args: seq<string>): seq<string> {
    if args == [] then []
    else NonEmpty(args[..|args| - 1]) + if args[|args| - 1] == [] then [] else [args[|args| - 1]]
  }

  /** Joining succeeds exactly if every argument can be quoted; splitting the
      result gives the arguments back, without the empty ones. */
  lemma {:induction false} SplitOfJoin(args: seq<string>)
    ensures Joined(args).Some? <==> forall i :: 0 <= i < |args| ==> !Unquotable(args[i])
    ensures Joined(args).Some? ==> Fields(Joined(args).value) == Some(NonEmpty(args))
  {
    if args != [] {
      var n := |args| - 1;
      var init, last := args[..n], args[n];
      SplitOfJoin(init);
      assert forall i :: 0 <= i < n ==> init[i] == args[i];
      if Joined(args).Some? {
        FieldsOfQuote(last);
        var q := Quote(last).value;
        hide Fields, Quote, Unquotable;
        if n == 0 {
          assert [] + [] + q == q && init == [];
          assert Joined(args) == Some(q);
          assert NonEmpty(args) == if last == [] then [] else [last];
        } else {
          FieldsConcat(Joined(init).value, q);
        }
      }
    }
  }

  lemma {:induction false} NonEmptyIsAll(args: seq<string>)
    ensures |NonEmpty(args)| <= |args|
    ensures NonEmpty(args) == args <==> [] !in args
  {
    if args != [] {
      var n := |args| - 1;
      NonEmptyIsAll(args[..n]);
      assert args == args[..n] + [args[n]];
    }
  }

  /** The round trip is exact if and only if no argument is empty. */
  lemma RoundTrip(args: seq<string>)
    requires forall i :: 0 <= i < |args| ==> !Unquotable(args[i])
    ensures Joined(args).Some?
    ensures Fields(Joined(args).value) == Some(args) <==> [] !in args
  {
    SplitOfJoin(args);
    NonEmptyIsAll(args);
  }
}
