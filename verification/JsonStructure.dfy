/** The structure check on a record: no object repeats a key and containers
    nest at most 64 deep. It walks the tokens of the text once. */
module JsonStructure {
  import opened Options

  const MAX_NESTING_DEPTH := 64

  /** A JSON value (sections 3 to 6 of RFC 8259); scalars other than strings
      are not told apart. */
  datatype Json =
    | Scalar(id: nat)
    | Text(s: string)
    | Array(items: seq<Json>)
    | Object(members: seq<Member>)

  datatype Member = Member(key: string, value: Json)

  datatype Token =
    | Delim(c: char)
    | StringToken(s: string)
    | ScalarToken(id: nat)

  // ----- The tokens of a value

  ghost function Tokens(v: Json): seq<Token>
    decreases v, 0
  {
    match v
    case Scalar(id) => [ScalarToken(id)]
    case Text(s) => [StringToken(s)]
    case Array(items) => [Delim('[')] + ItemTokens(items, 0) + [Delim(']')]
    case Object(members) => [Delim('{')] + MemberTokens(members, 0) + [Delim('}')]
  }

  ghost function ItemTokens(items: seq<Json>, k: nat): seq<Token>
    requires k <= |items|
    decreases items, |items| - k
  {
    if k == |items| then [] else Tokens(items[k]) + ItemTokens(items, k + 1)
  }

  ghost function MemberTokens(members: seq<Member>, k: nat): seq<Token>
    requires k <= |members|
    decreases members, |members| - k
  {
    if k == |members| then []
    else [StringToken(members[k].key)] + Tokens(members[k].value) + MemberTokens(members, k + 1)
  }

  // ----- What is allowed

  ghost predicate UniqueKeys(v: Json)
    decreases v
  {
    match v
    case Scalar(_) => true
    case Text(_) => true
    case Array(items) => forall i :: 0 <= i < |items| ==> UniqueKeys(items[i])
    case Object(members) =>
      && (forall i, j :: 0 <= i < j < |members| ==> members[i].key != members[j].key)
      && (forall i :: 0 <= i < |members| ==> UniqueKeys(members[i].value))
  }

  /** Containers nest at most `depth` deep. */
  ghost predicate NestsWithin(v: Json, depth: int)
    decreases v
  {
    match v
    case Scalar(_) => true
    case Text(_) => true
    case Array(items) => depth >= 1 && forall i :: 0 <= i < |items| ==> NestsWithin(items[i], depth - 1)
    case Object(members) => depth >= 1 && forall i :: 0 <= i < |members| ==> NestsWithin(members[i].value, depth - 1)
  }

  // ----- The first issue in document order

  datatype Issue = OK | Duplicate | TooDeep

  ghost function FirstIssue(v: Json, depth: nat): Issue
    decreases v, 0
  {
    match v
    case Scalar(_) => OK
    case Text(_) => OK
    case Array(items) => if depth > MAX_NESTING_DEPTH then TooDeep else FirstOfItems(items, 0, depth + 1)
    case Object(members) => if depth > MAX_NESTING_DEPTH then TooDeep else FirstOfMembers(members, 0, depth + 1)
  }

  ghost function FirstOfItems(items: seq<Json>, k: nat, depth: nat): Issue
    requires k <= |items|
    decreases items, |items| - k
  {
    if k == |items| then OK
    else if FirstIssue(items[k], depth) != OK then FirstIssue(items[k], depth)
    else FirstOfItems(items, k + 1, depth)
  }

  ghost function FirstOfMembers(members: seq<Member>, k: nat, depth: nat): Issue
    requires k <= |members|
    decreases members, |members| - k
  {
    if k == |members| then OK
    else if Repeats(members, k) then Duplicate
    else if FirstIssue(members[k].value, depth) != OK then FirstIssue(members[k].value, depth)
    else FirstOfMembers(members, k + 1, depth)
  }

  ghost predicate Repeats(members: seq<Member>, k: nat)
    requires k < |members|
  {
    exists i :: 0 <= i < k && members[i].key == members[k].key
  }

  /** The check passes exactly the allowed values, and what it reports is true. */
  lemma {:induction false} IssueIsExact(v: Json, depth: nat)
    ensures FirstIssue(v, depth) == OK <==> UniqueKeys(v) && NestsWithin(v, 64 + 1 - depth)
    ensures FirstIssue(v, depth) == Duplicate ==> !UniqueKeys(v)
    ensures FirstIssue(v, depth) == TooDeep ==> !NestsWithin(v, MAX_NESTING_DEPTH + 1 - depth)
    decreases v, 0
  {
    match v
    case Scalar(_) =>
    case Text(_) =>
    case Array(items) => ItemsExact(items, 0, depth + 1);
    case Object(members) => MembersExact(members, 0, depth + 1);
  }

  lemma {:induction false} ItemsExact(items: seq<Json>, k: nat, depth: nat)
    requires k <= |items|
    ensures FirstOfItems(items, k, depth) == OK <==>
            forall i :: k <= i < |items| ==> UniqueKeys(items[i]) && NestsWithin(items[i], MAX_NESTING_DEPTH + 1 - depth)
    ensures FirstOfItems(items, k, depth) == Duplicate ==> exists i :: k <= i < |items| && !UniqueKeys(items[i])
    ensures FirstOfItems(items, k, depth) == TooDeep ==>
              exists i :: k <= i < |items| && !NestsWithin(items[i], MAX_NESTING_DEPTH + 1 - depth)
    decreases items, |items| - k
  {
    if k < |items| {
      IssueIsExact(items[k], depth);
      ItemsExact(items, k + 1, depth);
    }
  }

  lemma {:induction false} MembersExact(members: seq<Member>, k: nat, depth: nat)
    requires k <= |members|
    ensures FirstOfMembers(members, k, depth) == OK <==>
            forall i :: k <= i < |members| ==>
              !Repeats(members, i) && UniqueKeys(members[i].value)
              && NestsWithin(members[i].value, MAX_NESTING_DEPTH + 1 - depth)
    ensures FirstOfMembers(members, k, depth) == Duplicate ==>
              exists i :: k <= i < |members| && (Repeats(members, i) || !UniqueKeys(members[i].value))
    ensures FirstOfMembers(members, k, depth) == TooDeep ==>
              exists i :: k <= i < |members| && !NestsWithin(members[i].value, MAX_NESTING_DEPTH + 1 - depth)
    decreases members, |members| - k
  {
    if k < |members| {
      IssueIsExact(members[k].value, depth);
      MembersExact(members, k + 1, depth);
    }
  }

  // ----- The scanner

  /** `l` stands in `tokens` at `pos`. */
  ghost predicate At(tokens: seq<Token>, pos: nat, l: seq<Token>) {
    pos + |l| <= |tokens| && tokens[pos..pos + |l|] == l
  }

  lemma AtConcat(tokens: seq<Token>, pos: nat, a: seq<Token>, b: seq<Token>)
    requires At(tokens, pos, a + b)
    ensures At(tokens, pos, a) && At(tokens, pos + |a|, b)
  {
    assert a == (a + b)[..|a|] && b == (a + b)[|a|..];
    assert tokens[pos..pos + |a|] == tokens[pos..pos + |a + b|][..|a|];
    assert tokens[pos + |a|..pos + |a| + |b|] == tokens[pos..pos + |a + b|][|a|..];
  }

  predicate Closes(t: Token) { t == Delim(']') || t == Delim('}') }

  lemma FirstToken(v: Json)
    ensures Tokens(v) != [] && !Closes(Tokens(v)[0])
    ensures v.Array? ==> Tokens(v)[0] == Delim('[')
    ensures v.Object? ==> Tokens(v)[0] == Delim('{')
    ensures v.Scalar? || v.Text? ==> |Tokens(v)| == 1 && !Tokens(v)[0].Delim?
  {
  }

  /** A decoder over the tokens of a record; after the last one, or where the
      text stops being JSON, reading fails. */
  class Decoder {
    const tokens: seq<Token>
    var pos: nat

    ghost predicate Valid()
      reads this
    {
      pos <= |tokens|
    }

    constructor (tokens: seq<Token>)
      ensures this.tokens == tokens && pos == 0 && Valid()
    {
      this.tokens, pos := tokens, 0;
    }

    method Token() returns (t: Option<Token>)
      requires Valid()
      modifies this
      ensures Valid()
      ensures old(pos) < |tokens| ==> t == Some(tokens[old(pos)]) && pos == old(pos) + 1
      ensures old(pos) == |tokens| ==> t == None && pos == old(pos)
    {
      if pos == |tokens| {
        return None;
      }
      t := Some(tokens[pos]);
      pos := pos + 1;
    }

    predicate More()
      requires Valid()
      reads this
    {
      pos < |tokens| && !Closes(tokens[pos])
    }

    /** Scan one value at nesting depth `depth`. If the tokens of a value `v`
        follow, the answer is its first issue, and on OK exactly its tokens
        were read. Any other tokens are scanned too, without a promise. */
    method ScanValue(depth: nat, ghost v: Option<Json>) returns (issue: Issue, failed: bool)
      requires Valid() && (v.Some? ==> At(tokens, pos, Tokens(v.value)))
      modifies this
      ensures Valid() && pos >= old(pos) && (!failed ==> pos > old(pos))
      ensures v.Some? ==> !failed && issue == FirstIssue(v.value, depth)
      ensures v.Some? && issue == OK ==> pos == old(pos) + |Tokens(v.value)|
      decreases |tokens| - pos, 1
    {
      if v.Some? {
        FirstToken(v.value);
        assert tokens[pos] == Tokens(v.value)[0];
      }
      var token := Token();
      if token.None? {
        return OK, true;
      }
      if !token.value.Delim? {
        return OK, false;
      }
      if depth > MAX_NESTING_DEPTH {
        return TooDeep, false;
      }
      match token.value.c {
        case '{' =>
          if v.Some? {
            ObjectInside(tokens, pos - 1, v.value);
          }
          issue, failed := ScanMembers(depth, if v.Some? then Some(v.value.members) else None);
        case '[' =>
          if v.Some? {
            ArrayInside(tokens, pos - 1, v.value);
          }
          issue, failed := ScanItems(depth, if v.Some? then Some(v.value.items) else None);
        case _ =>
          return OK, true;
      }
    }

    /** The rest of an object, up to and including its closing brace. */
    method ScanMembers(depth: nat, ghost members: Option<seq<Member>>) returns (issue: Issue, failed: bool)
      requires Valid() && (members.Some? ==> At(tokens, pos, MemberTokens(members.value, 0) + [Delim('}')]))
      modifies this
      ensures Valid() && pos >= old(pos)
      ensures members.Some? ==> !failed && issue == FirstOfMembers(members.value, 0, depth + 1)
      ensures members.Some? && issue == OK ==> pos == old(pos) + |MemberTokens(members.value, 0)| + 1
      decreases |tokens| - pos, 2
    {
      hide Tokens, FirstIssue;
      var seen: set<string> := {};
      ghost var k, start := 0, pos;
      while More()
        invariant Valid() && pos >= start
        invariant members.Some? ==>
          && k <= |members.value|
          && At(tokens, pos, MemberTokens(members.value, k) + [Delim('}')])
          && FirstOfMembers(members.value, 0, depth + 1) == FirstOfMembers(members.value, k, depth + 1)
          && pos + |MemberTokens(members.value, k)| == start + |MemberTokens(members.value, 0)|
          && (forall s :: s in seen <==> exists i :: 0 <= i < k && members.value[i].key == s)
        decreases |tokens| - pos
      {
        if members.Some? {
          NextMember(tokens, pos, members.value, k);
        }
        var keyToken := Token();
        if !keyToken.value.StringToken? {
          return OK, true;
        }
        var key := keyToken.value.s;
        if key in seen {
          return Duplicate, false;
        }
        seen := seen + {key};
        issue, failed := ScanValue(depth + 1, if members.Some? then Some(members.value[k].value) else None);
        if failed || issue != OK {
          return;
        }
        k := k + 1;
      }
      if members.Some? {
        NoMoreMembers(tokens, pos, members.value, k);
      }
      var close := Token();
      return OK, close.None?;
    }

    /** The rest of an array, up to and including its closing bracket. */
    method ScanItems(depth: nat, ghost items: Option<seq<Json>>) returns (issue: Issue, failed: bool)
      requires Valid() && (items.Some? ==> At(tokens, pos, ItemTokens(items.value, 0) + [Delim(']')]))
      modifies this
      ensures Valid() && pos >= old(pos)
      ensures items.Some? ==> !failed && issue == FirstOfItems(items.value, 0, depth + 1)
      ensures items.Some? && issue == OK ==> pos == old(pos) + |ItemTokens(items.value, 0)| + 1
      decreases |tokens| - pos, 2
    {
      hide Tokens, FirstIssue;
      ghost var k, start := 0, pos;
      while More()
        invariant Valid() && pos >= start
        invariant items.Some? ==>
          && k <= |items.value|
          && At(tokens, pos, ItemTokens(items.value, k) + [Delim(']')])
          && FirstOfItems(items.value, 0, depth + 1) == FirstOfItems(items.value, k, depth + 1)
          && pos + |ItemTokens(items.value, k)| == start + |ItemTokens(items.value, 0)|
        decreases |tokens| - pos
      {
        if items.Some? {
          NextItem(tokens, pos, items.value, k);
        }
        issue, failed := ScanValue(depth + 1, if items.Some? then Some(items.value[k]) else None);
        if failed || issue != OK {
          return;
        }
        k := k + 1;
      }
      if items.Some? {
        NoMoreItems(tokens, pos, items.value, k);
      }
      var close := Token();
      return OK, close.None?;
    }
  }

  lemma ObjectInside(tokens: seq<Token>, pos: nat, v: Json)
    requires v.Object? && At(tokens, pos, Tokens(v))
    ensures At(tokens, pos + 1, MemberTokens(v.members, 0) + [Delim('}')])
    ensures |Tokens(v)| == |MemberTokens(v.members, 0)| + 2
  {
    assert Tokens(v) == [Delim('{')] + (MemberTokens(v.members, 0) + [Delim('}')]);
    AtConcat(tokens, pos, [Delim('{')], MemberTokens(v.members, 0) + [Delim('}')]);
  }

  lemma ArrayInside(tokens: seq<Token>, pos: nat, v: Json)
    requires v.Array? && At(tokens, pos, Tokens(v))
    ensures At(tokens, pos + 1, ItemTokens(v.items, 0) + [Delim(']')])
    ensures |Tokens(v)| == |ItemTokens(v.items, 0)| + 2
  {
    assert Tokens(v) == [Delim('[')] + (ItemTokens(v.items, 0) + [Delim(']')]);
    AtConcat(tokens, pos, [Delim('[')], ItemTokens(v.items, 0) + [Delim(']')]);
  }

  /** If more tokens follow before the closing brace, they are those of the
      next member. */
  lemma NextMember(tokens: seq<Token>, pos: nat, members: seq<Member>, k: nat)
    requires k <= |members| && At(tokens, pos, MemberTokens(members, k) + [Delim('}')]) && !Closes(tokens[pos])
    ensures k < |members| && tokens[pos] == StringToken(members[k].key)
    ensures At(tokens, pos + 1, Tokens(members[k].value))
    ensures At(tokens, pos + 1 + |Tokens(members[k].value)|, MemberTokens(members, k + 1) + [Delim('}')])
    ensures |MemberTokens(members, k)| == 1 + |Tokens(members[k].value)| + |MemberTokens(members, k + 1)|
  {
    var l := MemberTokens(members, k) + [Delim('}')];
    assert tokens[pos] == l[0];
    var rest := MemberTokens(members, k + 1) + [Delim('}')];
    assert l == [StringToken(members[k].key)] + (Tokens(members[k].value) + rest);
    AtConcat(tokens, pos, [StringToken(members[k].key)], Tokens(members[k].value) + rest);
    AtConcat(tokens, pos + 1, Tokens(members[k].value), rest);
  }

  lemma NoMoreMembers(tokens: seq<Token>, pos: nat, members: seq<Member>, k: nat)
    requires k <= |members| && At(tokens, pos, MemberTokens(members, k) + [Delim('}')])
    requires pos >= |tokens| || Closes(tokens[pos])
    ensures k == |members| && pos < |tokens|
  {
    assert tokens[pos] == (MemberTokens(members, k) + [Delim('}')])[0];
  }

  lemma NextItem(tokens: seq<Token>, pos: nat, items: seq<Json>, k: nat)
    requires k <= |items| && At(tokens, pos, ItemTokens(items, k) + [Delim(']')]) && !Closes(tokens[pos])
    ensures k < |items| && At(tokens, pos, Tokens(items[k]))
    ensures At(tokens, pos + |Tokens(items[k])|, ItemTokens(items, k + 1) + [Delim(']')])
    ensures |ItemTokens(items, k)| == |Tokens(items[k])| + |ItemTokens(items, k + 1)|
  {
    var l := ItemTokens(items, k) + [Delim(']')];
    assert tokens[pos] == l[0];
    assert l == Tokens(items[k]) + (ItemTokens(items, k + 1) + [Delim(']')]);
    AtConcat(tokens, pos, Tokens(items[k]), ItemTokens(items, k + 1) + [Delim(']')]);
  }

  lemma NoMoreItems(tokens: seq<Token>, pos: nat, items: seq<Json>, k: nat)
    requires k <= |items| && At(tokens, pos, ItemTokens(items, k) + [Delim(']')])
    requires pos >= |tokens| || Closes(tokens[pos])
    ensures k == |items| && pos < |tokens|
  {
    assert tokens[pos] == (ItemTokens(items, k) + [Delim(']')])[0];
    if k < |items| {
      FirstToken(items[k]);
    }
  }

  /** The check on a record. Where the tokens of a value `v` stand at its
      start, it answers OK exactly if no object of `v` repeats a key and its
      containers nest at most 64 deep, and otherwise names an issue `v` has. */
  method ValidateJSONStructure(tokens: seq<Token>, ghost v: Option<Json>) returns (issue: Issue)
    requires v.Some? ==> At(tokens, 0, Tokens(v.value))
    ensures v.Some? ==>
              && (issue == OK <==> UniqueKeys(v.value) && NestsWithin(v.value, 64))
              && (issue == Duplicate ==> !UniqueKeys(v.value))
              && (issue == TooDeep ==> !NestsWithin(v.value, 64))
  {
    var decoder := new Decoder(tokens);
    var failed;
    issue, failed := decoder.ScanValue(1, v);
    if v.Some? {
      IssueIsExact(v.value, 1);
    }
    if failed {
      return OK;
    }
  }
}
