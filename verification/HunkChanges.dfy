/** Turning one hunk of a unified diff into replacements of line ranges. Added
    lines are merged into a neighbouring original or deleted line, because a
    replacement needs a line to replace. */
module HunkChanges {
  import opened Options

  datatype LineType = Added | Original | Deleted

  datatype DiffLine = DiffLine(number: int, typ: LineType, data: string)

  /** Replace the original lines `from` to `to`. */
  datatype Change = Change(from: int, to: int, newLines: seq<string>)

  datatype Hunk = Hunk(body: string, origStartLine: int, origNoNewlineAt: int)

  // ----- What a list of diff lines means

  ghost function OldSide(lines: seq<DiffLine>): seq<string> {
    if lines == [] then []
    else
      var last := lines[|lines| - 1];
      OldSide(lines[..|lines| - 1]) + if last.typ != Added then [last.data] else []
  }

  ghost function NewSide(lines: seq<DiffLine>): seq<string> {
    if lines == [] then []
    else
      var last := lines[|lines| - 1];
      NewSide(lines[..|lines| - 1]) + if last.typ != Deleted then [last.data] else []
  }

  /** Original and deleted lines are numbered consecutively from `start`. */
  ghost predicate Numbered(lines: seq<DiffLine>, start: int) {
    forall i :: 0 <= i < |lines| && lines[i].typ != Added ==> lines[i].number == start + |OldSide(lines[..i])|
  }

  /** The ranges lie within `len` lines from `start`, in increasing order, and
      do not touch each other's lines. */
  ghost predicate Increasing(changes: seq<Change>, start: int, len: int) {
    if changes == [] then len >= 0
    else
      var last := changes[|changes| - 1];
      && start <= last.from <= last.to < start + len
      && Increasing(changes[..|changes| - 1], start, last.from - start)
  }

  /** `text`, whose first line has number `start`, with every range replaced. */
  ghost function Patched(text: seq<string>, start: int, changes: seq<Change>): seq<string>
    requires Increasing(changes, start, |text|)
    decreases |changes|
  {
    if changes == [] then text
    else
      var last := changes[|changes| - 1];
      Patched(text[..last.from - start], start, changes[..|changes| - 1]) + last.newLines + text[last.to + 1 - start..]
  }

  lemma {:induction false} IncreasingMeans(changes: seq<Change>, start: int, len: int, i: nat, j: nat)
    requires Increasing(changes, start, len) && i < |changes| && j < |changes|
    ensures start <= changes[i].from <= changes[i].to < start + len
    ensures i < j ==> changes[i].to < changes[j].from
    decreases |changes|
  {
    var init, last := changes[..|changes| - 1], changes[|changes| - 1];
    if i < |init| {
      IncreasingMeans(init, start, last.from - start, i, if j < |init| then j else i);
    }
  }

  // ----- Extending a prefix

  lemma {:induction false} SideSnoc(lines: seq<DiffLine>, i: nat)
    requires i < |lines|
    ensures OldSide(lines[..i + 1]) == OldSide(lines[..i]) + if lines[i].typ != Added then [lines[i].data] else []
    ensures NewSide(lines[..i + 1]) == NewSide(lines[..i]) + if lines[i].typ != Deleted then [lines[i].data] else []
  {
    assert lines[..i + 1][..i] == lines[..i];
  }

  /** Lines after all changes are kept. */
  lemma {:induction false} KeepMore(text: seq<string>, start: int, changes: seq<Change>, more: seq<string>)
    requires Increasing(changes, start, |text|)
    ensures Increasing(changes, start, |text + more|)
    ensures Patched(text + more, start, changes) == Patched(text, start, changes) + more
  {
    if changes != [] {
      var last, init := changes[|changes| - 1], changes[..|changes| - 1];
      var i, j := last.from - start, last.to + 1 - start;
      SliceMore(text, more, i);
      SliceMore(text, more, j);
      var head := Patched(text[..i], start, init) + last.newLines;
      UnfoldPatched(text, start, changes);
      UnfoldPatched(text + more, start, changes);
      hide Patched, Increasing;
      Assoc(head, text[j..], more);
    }
  }

  lemma UnfoldPatched(text: seq<string>, start: int, changes: seq<Change>)
    requires Increasing(changes, start, |text|) && changes != []
    ensures var last, init := changes[|changes| - 1], changes[..|changes| - 1];
            && 0 <= last.from - start <= last.to + 1 - start <= |text|
            && Increasing(init, start, |text[..last.from - start]|)
            && Patched(text, start, changes) ==
               Patched(text[..last.from - start], start, init) + last.newLines + text[last.to + 1 - start..]
  {
  }

  lemma SliceMore(text: seq<string>, more: seq<string>, i: nat)
    requires i <= |text|
    ensures (text + more)[..i] == text[..i] && (text + more)[i..] == text[i..] + more
  {
  }

  lemma Assoc(a: seq<string>, b: seq<string>, c: seq<string>)
    ensures a + (b + c) == a + b + c
  {
  }

  /** A further change replaces the lines `gone` at the end. */
  lemma {:induction false} ReplaceMore(text: seq<string>, start: int, changes: seq<Change>, gone: seq<string>, c: Change)
    requires Increasing(changes, start, |text|) && gone != []
    requires c.from == start + |text| && c.to == start + |text| + |gone| - 1
    ensures Increasing(changes + [c], start, |text + gone|)
    ensures Patched(text + gone, start, changes + [c]) == Patched(text, start, changes) + c.newLines
  {
    assert (changes + [c])[..|changes|] == changes;
    assert (text + gone)[..|text|] == text;
  }

  // ----- The parser

  class HunkChangesParser {
    /** Needed because added lines are merged with the last original line. */
    var lastOriginalLine: Option<DiffLine>
    /** Additions before any original or deleted line. */
    var replacementLinesToPrepend: seq<string>
    var changes: seq<Change>

    constructor ()
      ensures lastOriginalLine == None && replacementLinesToPrepend == [] && changes == []
    {
      lastOriginalLine, replacementLinesToPrepend, changes := None, [], [];
    }

    /** What holds of the lines before `i` between two turns of the loop. */
    ghost predicate Settled(lines: seq<DiffLine>, i: nat, start: int)
      requires i <= |lines|
      reads this
    {
      Converted(OldSide(lines[..i]), NewSide(lines[..i]), start, changes, replacementLinesToPrepend)
    }

    /** Additions that follow can be merged into the line just before them. */
    ghost predicate CanMerge(lines: seq<DiffLine>, i: nat, start: int)
      requires i <= |lines|
      reads this
    {
      if i == 0 then lastOriginalLine == None && replacementLinesToPrepend == []
      else
        && lines[i - 1].typ == Original && lastOriginalLine == Some(lines[i - 1])
        && replacementLinesToPrepend == []
        && Converted(OldSide(lines[..i - 1]), NewSide(lines[..i - 1]), start, changes, [])
    }

    ghost predicate Ready(lines: seq<DiffLine>, i: nat, start: int)
      requires i <= |lines|
      reads this
    {
      && Settled(lines, i, start)
      && (i < |lines| && lines[i].typ == Added ==> CanMerge(lines, i, start))
    }

    method HandleOriginalLine(lines: seq<DiffLine>, i: nat, ghost start: int) returns (next: nat)
      requires i < |lines| && lines[i].typ == Original && Numbered(lines, start) && Settled(lines, i, start)
      modifies this
      ensures i < next <= |lines| && Ready(lines, next, start)
    {
      hide Converted, OldSide, NewSide;
      var line := lines[i];
      SideSnoc(lines, i);
      if |replacementLinesToPrepend| == 0 {
        lastOriginalLine := Some(line);
        ConvertedKeep(OldSide(lines[..i]), NewSide(lines[..i]), start, changes, [line.data]);
        return i + 1;
      }
      var followingAddedLines;
      next, followingAddedLines := TakeAdded(lines, i + 1);
      var change := Change(line.number, line.number, replacementLinesToPrepend + [line.data] + followingAddedLines);
      ConvertedReplace(OldSide(lines[..i]), NewSide(lines[..i]), start, changes, replacementLinesToPrepend,
                       [line.data], [line.data] + followingAddedLines, change);
      assert NewSide(lines[..next]) == NewSide(lines[..i]) + ([line.data] + followingAddedLines);
      changes := changes + [change];
      replacementLinesToPrepend := [];
      lastOriginalLine := Some(line);
    }

    method HandleDeletedLines(deletedLines: seq<DiffLine>, addedLines: seq<string>,
                              ghost start: int, ghost before: seq<string>, ghost updated: seq<string>)
      requires deletedLines != [] && Converted(before, updated, start, changes, replacementLinesToPrepend)
      requires deletedLines[0].number == start + |before|
      requires deletedLines[|deletedLines| - 1].number == start + |before| + |deletedLines| - 1
      modifies `replacementLinesToPrepend, `changes
      ensures Converted(before + Data(deletedLines), updated + addedLines, start, changes, replacementLinesToPrepend)
    {
      var change := Change(deletedLines[0].number, deletedLines[|deletedLines| - 1].number, []);
      ghost var prepend := replacementLinesToPrepend;
      if |addedLines| != 0 {
        change := change.(newLines := replacementLinesToPrepend + addedLines);
        replacementLinesToPrepend := [];
      } else if |replacementLinesToPrepend| != 0 {
        change := change.(newLines := replacementLinesToPrepend);
        replacementLinesToPrepend := [];
      }
      assert change.newLines == prepend + addedLines;
      ConvertedReplace(before, updated, start, changes, prepend, Data(deletedLines), addedLines, change);
      changes := changes + [change];
    }

    method HandleAddedOnlyLines(lines: seq<DiffLine>, i: nat, addedLines: seq<string>, ghost start: int)
      requires i <= |lines| && Numbered(lines, start) && CanMerge(lines, i, start) && (i == 0 ==> changes == [])
      requires addedLines != []
      modifies `replacementLinesToPrepend, `changes
      ensures Converted(OldSide(lines[..i]), NewSide(lines[..i]) + addedLines, start, changes, replacementLinesToPrepend)
    {
      hide OldSide, NewSide, Increasing, Patched;
      if lastOriginalLine.None? {
        replacementLinesToPrepend := addedLines;
        NothingYet(lines, start, addedLines);
        return;
      }
      var line := lastOriginalLine.value;
      SideSnoc(lines, i - 1);
      var change := Change(line.number, line.number, replacementLinesToPrepend + [line.data] + addedLines);
      ConvertedReplace(OldSide(lines[..i - 1]), NewSide(lines[..i - 1]), start, changes, [],
                       [line.data], [line.data] + addedLines, change);
      changes := changes + [change];
      replacementLinesToPrepend := [];
    }

    /** One turn of the loop: an original line, or a run of deleted lines, or
        of added lines, or both runs. */
    method Turn(lines: seq<DiffLine>, i: nat, ghost start: int) returns (next: nat)
      requires i < |lines| && Numbered(lines, start) && Ready(lines, i, start)
      requires i == 0 ==> changes == []
      modifies this
      ensures i < next <= |lines| && Ready(lines, next, start)
    {
      hide Converted, OldSide, NewSide, CanMerge;
      if lines[i].typ == Original {
        next := HandleOriginalLine(lines, i, start);
        return;
      }
      var deletedLines, addedLines;
      next, deletedLines := TakeDeleted(lines, i);
      ghost var mid := next;
      next, addedLines := TakeAdded(lines, next);
      if |deletedLines| != 0 {
        NumbersOfRun(lines, start, i, mid);
        HandleDeletedLines(deletedLines, addedLines, start, OldSide(lines[..i]), NewSide(lines[..i]));
        return;
      }
      HandleAddedOnlyLines(lines, i, addedLines, start);
    }

    method Parse(h: Hunk) returns (r: seq<Change>, ghost lines: seq<DiffLine>)
      requires lastOriginalLine == None && replacementLinesToPrepend == [] && changes == []
      modifies this
      ensures Classified(h, lines) && Numbered(lines, h.origStartLine)
      ensures Increasing(r, h.origStartLine, |OldSide(lines)|)
      ensures Patched(OldSide(lines), h.origStartLine, r) == NewSide(lines)
              <==> OldSide(lines) != [] || NewSide(lines) == []
    {
      var diffLines := ParseDiffLines(h);
      lines := diffLines;
      var i := 0;
      NothingYet(lines, h.origStartLine, [""]);
      while i < |diffLines|
        invariant i <= |lines| && Ready(lines, i, h.origStartLine)
        invariant i == 0 ==> changes == []
      {
        hide Converted;
        i := Turn(diffLines, i, h.origStartLine);
      }
      assert lines[..|lines|] == lines;
      if |replacementLinesToPrepend| != 0 {
        return [], lines;
      }
      r := changes;
      if OldSide(lines) == [] {
        NothingToChange(changes, h.origStartLine);
      }
    }
  }

  ghost function Data(lines: seq<DiffLine>): (r: seq<string>)
    ensures |r| == |lines| && forall i :: 0 <= i < |r| ==> r[i] == lines[i].data
  {
    seq(|lines|, i requires 0 <= i < |lines| => lines[i].data)
  }

  /** The changes turn `text` into `updated`; or there was no line to change
      yet, and the additions so far wait in `prepend`. */
  ghost predicate Converted(text: seq<string>, updated: seq<string>, start: int, changes: seq<Change>, prepend: seq<string>) {
    match prepend == []
    case true => Increasing(changes, start, |text|) && Patched(text, start, changes) == updated
    case false => text == [] && changes == [] && updated == prepend
  }

  lemma {:induction false} ConvertedKeep(text: seq<string>, updated: seq<string>, start: int, changes: seq<Change>, more: seq<string>)
    requires Converted(text, updated, start, changes, [])
    ensures Converted(text + more, updated + more, start, changes, [])
  {
    KeepMore(text, start, changes, more);
  }

  lemma {:induction false} ConvertedReplace(text: seq<string>, updated: seq<string>, start: int, changes: seq<Change>, prepend: seq<string>,
                         gone: seq<string>, added: seq<string>, c: Change)
    requires Converted(text, updated, start, changes, prepend) && gone != []
    requires c.from == start + |text| && c.to == start + |text| + |gone| - 1 && c.newLines == prepend + added
    ensures Converted(text + gone, updated + added, start, changes + [c], [])
  {
    ReplaceMore(text, start, changes, gone, c);
    if prepend != [] {
      assert Patched(text, start, changes) == [];
      assert [] + c.newLines == updated + added;
    }
  }

  lemma NothingYet(lines: seq<DiffLine>, start: int, added: seq<string>)
    requires added != []
    ensures Converted(OldSide(lines[..0]), NewSide(lines[..0]) + added, start, [], added)
    ensures Converted(OldSide(lines[..0]), NewSide(lines[..0]), start, [], [])
  {
  }

  /** Collect the run of added lines at `i`. */
  method TakeAdded(lines: seq<DiffLine>, i: nat) returns (next: nat, added: seq<string>)
    requires i <= |lines|
    ensures i <= next <= |lines| && (next < |lines| ==> lines[next].typ != Added)
    ensures i < next <==> i < |lines| && lines[i].typ == Added
    ensures added == Data(lines[i..next])
    ensures OldSide(lines[..next]) == OldSide(lines[..i]) && NewSide(lines[..next]) == NewSide(lines[..i]) + added
  {
    hide OldSide, NewSide;
    next, added := i, [];
    while next < |lines| && lines[next].typ == Added
      invariant i <= next <= |lines|
      invariant i < next ==> lines[i].typ == Added
      invariant added == Data(lines[i..next])
      invariant OldSide(lines[..next]) == OldSide(lines[..i]) && NewSide(lines[..next]) == NewSide(lines[..i]) + added
    {
      SideSnoc(lines, next);
      assert Data(lines[i..next + 1]) == Data(lines[i..next]) + [lines[next].data];
      added := added + [lines[next].data];
      next := next + 1;
    }
  }

  /** Collect the run of deleted lines at `i`. */
  method TakeDeleted(lines: seq<DiffLine>, i: nat) returns (next: nat, deleted: seq<DiffLine>)
    requires i <= |lines|
    ensures i <= next <= |lines| && (next < |lines| ==> lines[next].typ != Deleted)
    ensures deleted == lines[i..next] && forall k :: i <= k < next ==> lines[k].typ == Deleted
    ensures OldSide(lines[..next]) == OldSide(lines[..i]) + Data(deleted) && NewSide(lines[..next]) == NewSide(lines[..i])
  {
    hide OldSide, NewSide;
    next, deleted := i, [];
    assert Data([]) == [];
    while next < |lines| && lines[next].typ == Deleted
      invariant i <= next <= |lines|
      invariant deleted == lines[i..next] && forall k :: i <= k < next ==> lines[k].typ == Deleted
      invariant OldSide(lines[..next]) == OldSide(lines[..i]) + Data(deleted) && NewSide(lines[..next]) == NewSide(lines[..i])
    {
      SideSnoc(lines, next);
      assert Data(lines[i..next + 1]) == Data(lines[i..next]) + [lines[next].data];
      deleted := deleted + [lines[next]];
      next := next + 1;
    }
  }

  lemma NothingToChange(changes: seq<Change>, start: int)
    requires Increasing(changes, start, 0)
    ensures changes == []
  {
  }

  /** A run of deleted lines has consecutive numbers. */
  lemma {:induction false} NumbersOfRun(lines: seq<DiffLine>, start: int, i: nat, next: nat)
    requires Numbered(lines, start) && i < next <= |lines| && forall k :: i <= k < next ==> lines[k].typ == Deleted
    ensures lines[i].number == start + |OldSide(lines[..i])|
    ensures lines[next - 1].number == start + |OldSide(lines[..i])| + next - i - 1
    ensures |OldSide(lines[..next])| == |OldSide(lines[..i])| + next - i
    decreases next
  {
    hide OldSide, NewSide;
    SideSnoc(lines, next - 1);
    if i + 1 < next {
      NumbersOfRun(lines, start, i, next - 1);
    }
  }

  // ----- Reading the body of a hunk

  /** The parts of `s` between line breaks. */
  function Split(s: string): (r: seq<string>)
    ensures r != []
  {
    if s == [] then [[]]
    else
      var r, c := Split(s[..|s| - 1]), s[|s| - 1];
      if c == '\n' then r + [[]] else r[..|r| - 1] + [r[|r| - 1] + [c]]
  }

  /** The lines of a body; what follows a final line break is no line. */
  function BodyLines(body: string): seq<string> {
    var lines := Split(body);
    if lines[|lines| - 1] == [] then lines[..|lines| - 1] else lines
  }

  function TypeOf(raw: string): LineType {
    if raw != [] && raw[0] == '-' then Deleted
    else if raw != [] && raw[0] == '+' then Added
    else Original
  }

  function DataOf(raw: string): string {
    if raw != [] && (raw[0] == '-' || raw[0] == '+' || raw[0] == ' ') then raw[1..] else raw
  }

  /** Each line of the body with its type, and an empty added line at the end
      if the original file did not end with a line break. */
  ghost predicate Classified(h: Hunk, lines: seq<DiffLine>) {
    var raw := BodyLines(h.body);
    && |lines| == |raw| + (if h.origNoNewlineAt > 0 then 1 else 0)
    && (forall i :: 0 <= i < |raw| ==> lines[i].typ == TypeOf(raw[i]) && lines[i].data == DataOf(raw[i]))
    && (h.origNoNewlineAt > 0 ==> lines[|raw|].typ == Added && lines[|raw|].data == [])
  }

  lemma NumberedSnoc(lines: seq<DiffLine>, start: int, line: DiffLine)
    requires Numbered(lines, start) && (line.typ != Added ==> line.number == start + |OldSide(lines)|)
    ensures Numbered(lines + [line], start)
    ensures OldSide(lines + [line]) == OldSide(lines) + if line.typ != Added then [line.data] else []
  {
    var l := lines + [line];
    assert l[..|lines|] == lines;
    assert forall i :: 0 <= i < |lines| ==> l[..i] == lines[..i] && l[i] == lines[i];
  }

  method ParseDiffLines(h: Hunk) returns (diffLines: seq<DiffLine>)
    ensures Classified(h, diffLines) && Numbered(diffLines, h.origStartLine)
  {
    hide OldSide, Split;
    var lines := Split(h.body);
    var current := h.origStartLine;
    diffLines := [];
    assert OldSide([]) == [] by { EmptySides(); }
    for i := 0 to |lines|
      invariant |diffLines| == i <= |BodyLines(h.body)|
      invariant forall k :: 0 <= k < i ==> diffLines[k].typ == TypeOf(lines[k]) && diffLines[k].data == DataOf(lines[k])
      invariant Numbered(diffLines, h.origStartLine) && current == h.origStartLine + |OldSide(diffLines)|
    {
      var line := lines[i];
      if i == |lines| - 1 && |line| == 0 {
        break;
      }
      var dl := DiffLine(current, TypeOf(line), DataOf(line));
      NumberedSnoc(diffLines, h.origStartLine, dl);
      if dl.typ != Added {
        current := current + 1;
      }
      diffLines := diffLines + [dl];
    }
    if h.origNoNewlineAt > 0 {
      var dl := DiffLine(current + 1, Added, []);
      NumberedSnoc(diffLines, h.origStartLine, dl);
      diffLines := diffLines + [dl];
    }
  }

  lemma EmptySides()
    ensures OldSide([]) == [] && NewSide([]) == []
  {
  }

  // ----- Bodies as a diff prints them

  function Mark(typ: LineType): char {
    match typ
    case Added => '+'
    case Deleted => '-'
    case Original => ' '
  }

  /** The body that shows these lines: each behind its mark, with a line break. */
  ghost function Printed(lines: seq<DiffLine>): string {
    if lines == [] then []
    else
      var last := lines[|lines| - 1];
      Printed(lines[..|lines| - 1]) + ([Mark(last.typ)] + last.data) + "\n"
  }

  ghost function RawLines(lines: seq<DiffLine>): (r: seq<string>)
    ensures |r| == |lines| && forall i :: 0 <= i < |r| ==> r[i] == [Mark(lines[i].typ)] + lines[i].data
  {
    seq(|lines|, i requires 0 <= i < |lines| => [Mark(lines[i].typ)] + lines[i].data)
  }

  lemma {:induction false} SplitMore(s: string, more: string)
    requires '\n' !in more
    ensures var r := Split(s); Split(s + more) == r[..|r| - 1] + [r[|r| - 1] + more]
  {
    var r := Split(s);
    if more == [] {
      assert s + more == s && r[|r| - 1] + more == r[|r| - 1];
    } else {
      var init, c := more[..|more| - 1], more[|more| - 1];
      SplitMore(s, init);
      assert (s + more)[..|s + more| - 1] == s + init && (s + more)[|s + more| - 1] == c;
      assert r[|r| - 1] + init + [c] == r[|r| - 1] + more;
    }
  }

  lemma SplitBreak(s: string)
    ensures Split(s + "\n") == Split(s) + [[]]
  {
    assert (s + "\n")[..|s|] == s;
  }

  lemma {:induction false} SplitPrinted(lines: seq<DiffLine>)
    requires forall i :: 0 <= i < |lines| ==> '\n' !in lines[i].data
    ensures Split(Printed(lines)) == RawLines(lines) + [[]]
  {
    if lines != [] {
      var init, last := lines[..|lines| - 1], lines[|lines| - 1];
      var raw := [Mark(last.typ)] + last.data;
      SplitPrinted(init);
      SplitMore(Printed(init), raw);
      SplitBreak(Printed(init) + raw);
      hide Split;
      assert [] + raw == raw;
      assert RawLines(lines) == RawLines(init) + [raw];
      assert Split(Printed(init) + raw) == RawLines(init) + [raw];
    }
  }

  lemma RawMeans(line: DiffLine)
    ensures TypeOf([Mark(line.typ)] + line.data) == line.typ && DataOf([Mark(line.typ)] + line.data) == line.data
  {
    assert ([Mark(line.typ)] + line.data)[1..] == line.data;
  }

  /** Reading the body that a diff prints gives back its lines: those it marks as
      added, as deleted, and as kept, with their text. */
  lemma ReadsPrinted(h: Hunk, shown: seq<DiffLine>, lines: seq<DiffLine>)
    requires forall i :: 0 <= i < |shown| ==> '\n' !in shown[i].data
    requires h.body == Printed(shown) && h.origNoNewlineAt <= 0 && Classified(h, lines)
    ensures |lines| == |shown| && forall i :: 0 <= i < |shown| ==> lines[i].typ == shown[i].typ && lines[i].data == shown[i].data
    ensures OldSide(lines) == OldSide(shown) && NewSide(lines) == NewSide(shown)
  {
    SplitPrinted(shown);
    hide Split, TypeOf, DataOf;
    var raw := BodyLines(h.body);
    assert raw == RawLines(shown);
    forall i | 0 <= i < |shown|
      ensures lines[i].typ == shown[i].typ && lines[i].data == shown[i].data
    {
      RawMeans(shown[i]);
    }
    SameSides(lines, shown);
  }

  lemma {:induction false} SameSides(a: seq<DiffLine>, b: seq<DiffLine>)
    requires |a| == |b| && forall i :: 0 <= i < |a| ==> a[i].typ == b[i].typ && a[i].data == b[i].data
    ensures OldSide(a) == OldSide(b) && NewSide(a) == NewSide(b)
  {
    if a != [] {
      SameSides(a[..|a| - 1], b[..|b| - 1]);
    }
  }
}
