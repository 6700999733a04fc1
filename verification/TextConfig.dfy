/** The managed-block editor of internal/textconfig. A file is an optional string. */
module TextConfig {
  import opened Sequences
  import opened Text

  datatype Position = Top | Bottom | Elsewhere

  datatype Entry = Entry(key: string, value: string)

  datatype Block = Block(position: Position, entries: seq<Entry>)

  datatype Delimiter = Delimiter(start: string, end: string)

  /** delimiter is the one written; all are the ones recognised when reading. */
  datatype Settings = Settings(delimiter: Option<Delimiter>, all: seq<Delimiter>, spacer: string, deprecated: seq<Entry>)

  function Format(e: Entry, spacer: string): string { TrimSpace(e.key + spacer + e.value) }

  predicate MatchesStart(st: Settings, line: string) {
    exists d | d in st.all :: TrimSpace(line) == d.start
  }

  predicate MatchesEnd(st: Settings, line: string) {
    exists d | d in st.all :: TrimSpace(line) == d.end
  }

  predicate MatchesEntry(e: Entry, line: string) {
    HasPrefix(TrimSpace(line), e.key) && HasSuffix(TrimSpace(line), e.value)
  }

  predicate IsDeprecated(st: Settings, line: string) {
    exists e | e in st.deprecated :: MatchesEntry(e, line)
  }

  // ---------- Cleaning lines ----------

  /** The lines that survive a cleanup which starts inside or outside a block. */
  function Clean(st: Settings, lines: seq<string>, inBlock: bool): seq<string> {
    if lines == [] then []
    else if MatchesStart(st, lines[0]) then Clean(st, lines[1..], true)
    else if MatchesEnd(st, lines[0]) then Clean(st, lines[1..], false)
    else if inBlock then Clean(st, lines[1..], true)
    else if IsDeprecated(st, lines[0]) then Clean(st, lines[1..], false)
    else [lines[0]] + Clean(st, lines[1..], false)
  }

  function OpenAfter(st: Settings, lines: seq<string>, inBlock: bool): bool {
    if lines == [] then inBlock
    else OpenAfter(st, lines[1..],
                   MatchesStart(st, lines[0]) || (!MatchesEnd(st, lines[0]) && inBlock))
  }

  lemma {:induction false} CleanConcat(st: Settings, a: seq<string>, b: seq<string>, inBlock: bool)
    ensures Clean(st, a + b, inBlock) == Clean(st, a, inBlock) + Clean(st, b, OpenAfter(st, a, inBlock))
    ensures OpenAfter(st, a + b, inBlock) == OpenAfter(st, b, OpenAfter(st, a, inBlock))
  {
    if a == [] {
      assert a + b == b;
    } else {
      assert (a + b)[1..] == a[1..] + b;
      CleanConcat(st, a[1..], b, MatchesStart(st, a[0]) || (!MatchesEnd(st, a[0]) && inBlock));
    }
  }

  /** Line i lies in a block: some start delimiter precedes it with no end delimiter in between. */
  ghost predicate InsideBlock(st: Settings, lines: seq<string>, i: nat)
    requires i <= |lines|
  {
    exists j | 0 <= j < i :: MatchesStart(st, lines[j])
      && forall k | j < k < i :: MatchesStart(st, lines[k]) || !MatchesEnd(st, lines[k])
  }

  ghost predicate IsManaged(st: Settings, line: string) {
    MatchesStart(st, line) || MatchesEnd(st, line) || IsDeprecated(st, line)
  }

  /** The lines at positions below n that belong to the user. */
  ghost function UserLines(st: Settings, lines: seq<string>, n: nat): seq<string>
    requires n <= |lines|
  {
    if n == 0 then []
    else
      var last := if IsManaged(st, lines[n - 1]) || InsideBlock(st, lines, n - 1) then [] else [lines[n - 1]];
      UserLines(st, lines, n - 1) + last
  }

  /** Cleanup keeps exactly the lines that are neither managed nor inside a block, in order. */
  lemma {:induction false} CleanKeepsUserLines(st: Settings, lines: seq<string>, n: nat)
    requires n <= |lines|
    ensures Clean(st, lines[..n], false) == UserLines(st, lines, n)
    ensures OpenAfter(st, lines[..n], false) <==> InsideBlock(st, lines, n)
  {
    if n > 0 {
      CleanKeepsUserLines(st, lines, n - 1);
      var front, last := lines[..n - 1], lines[n - 1];
      assert lines[..n] == front + [last];
      CleanConcat(st, front, [last], false);
      assert Clean(st, [last][1..], true) == Clean(st, [last][1..], false) == [];
      InsideBlockStep(st, lines, n);
    }
  }

  lemma InsideBlockStep(st: Settings, lines: seq<string>, n: nat)
    requires 0 < n <= |lines|
    ensures InsideBlock(st, lines, n) <==>
            MatchesStart(st, lines[n - 1]) || (!MatchesEnd(st, lines[n - 1]) && InsideBlock(st, lines, n - 1))
  {
    if InsideBlock(st, lines, n) {
      var j :| 0 <= j < n && MatchesStart(st, lines[j])
        && forall k | j < k < n :: MatchesStart(st, lines[k]) || !MatchesEnd(st, lines[k]);
      if j < n - 1 { assert InsideBlock(st, lines, n - 1); }
    } else if !MatchesStart(st, lines[n - 1]) && !MatchesEnd(st, lines[n - 1]) {
      assert !InsideBlock(st, lines, n - 1);
    }
  }

  ghost predicate NoneManaged(st: Settings, lines: seq<string>) {
    forall l | l in lines :: !IsManaged(st, l)
  }

  lemma {:induction false} CleanLeavesNoneManaged(st: Settings, lines: seq<string>, inBlock: bool)
    ensures NoneManaged(st, Clean(st, lines, inBlock))
    ensures forall l | l in Clean(st, lines, inBlock) :: l in lines
  {
    if lines != [] {
      CleanLeavesNoneManaged(st, lines[1..], true);
      CleanLeavesNoneManaged(st, lines[1..], false);
    }
  }

  lemma {:induction false} CleanUnmanaged(st: Settings, lines: seq<string>)
    requires NoneManaged(st, lines)
    ensures Clean(st, lines, false) == lines && !OpenAfter(st, lines, false)
  {
    if lines != [] {
      assert lines[0] in lines;
      CleanUnmanaged(st, lines[1..]);
    }
  }

  // ---------- Files ----------

  function CleanText(st: Settings, text: string): string {
    Join(Clean(st, Split(text, NEWLINE), false), NEWLINE)
  }

  function Formatted(entries: seq<Entry>, spacer: string): seq<string> {
    if entries == [] then [] else [Format(entries[0], spacer)] + Formatted(entries[1..], spacer)
  }

  /** Writing a block with entries needs a delimiter to write. */
  predicate Writable(st: Settings, b: Block) { b.entries != [] ==> st.delimiter.Some? }

  function Lines(st: Settings, b: Block): seq<string>
    requires Writable(st, b)
  {
    if b.entries == [] then []
    else [st.delimiter.value.start] + Formatted(b.entries, st.spacer) + [st.delimiter.value.end]
  }

  function LinesAt(st: Settings, blocks: seq<Block>, position: Position): seq<string>
    requires forall b | b in blocks :: Writable(st, b)
  {
    if blocks == [] then []
    else
      var front, last := blocks[..|blocks| - 1], blocks[|blocks| - 1];
      LinesAt(st, front, position) + if last.position == position then Lines(st, last) else []
  }

  lemma LinesAtNext(st: Settings, blocks: seq<Block>, i: nat, position: Position)
    requires i < |blocks| && forall x | x in blocks :: Writable(st, x)
    ensures LinesAt(st, blocks[..i + 1], position)
         == LinesAt(st, blocks[..i], position) + if blocks[i].position == position then Lines(st, blocks[i]) else []
  {
    var next := blocks[..i + 1];
    assert next[..|next| - 1] == blocks[..i];
  }

  /** What Apply reads back after cleaning the file in place; nothing when there is no file. */
  function CleanedUp(st: Settings, file: Option<string>): seq<string> {
    if file.None? then [] else Clean(st, Split(CleanText(st, file.value), NEWLINE), false)
  }

  function Applied(st: Settings, blocks: seq<Block>, file: Option<string>): string
    requires forall b | b in blocks :: Writable(st, b)
  {
    Join(LinesAt(st, blocks, Top) + CleanedUp(st, file) + LinesAt(st, blocks, Bottom), NEWLINE)
  }

  class Handle {
    const settings: Settings
    var blocks: seq<Block>
    var file: Option<string>

    constructor (delimiter: Option<Delimiter>, known: seq<Delimiter>, spacer: string, deprecated: seq<Entry>,
                 file: Option<string>)
      ensures blocks == [] && this.file == file
      ensures settings == Settings(delimiter, (if delimiter.Some? then [delimiter.value] else []) + known,
                                   if spacer == "" then " " else spacer, deprecated)
    {
      settings := Settings(delimiter, (if delimiter.Some? then [delimiter.value] else []) + known,
                           if spacer == "" then " " else spacer, deprecated);
      blocks := [];
      this.file := file;
    }

    method AddBlock(b: Block)
      modifies this`blocks
      ensures blocks == old(blocks) + [b]
    {
      blocks := blocks + [b];
    }

    method MatchStart(line: string) returns (found: bool)
      ensures found <==> MatchesStart(settings, line)
      ensures found <==> exists d | d in settings.all :: TrimSpace(line) == d.start
    {
      for i := 0 to |settings.all|
        invariant forall k | 0 <= k < i :: TrimSpace(line) != settings.all[k].start
      {
        if TrimSpace(line) == settings.all[i].start { return true; }
      }
      return false;
    }

    method MatchEnd(line: string) returns (found: bool)
      ensures found <==> MatchesEnd(settings, line)
      ensures found <==> exists d | d in settings.all :: TrimSpace(line) == d.end
    {
      for i := 0 to |settings.all|
        invariant forall k | 0 <= k < i :: TrimSpace(line) != settings.all[k].end
      {
        if TrimSpace(line) == settings.all[i].end { return true; }
      }
      return false;
    }

    method CleanLines(lines: seq<string>) returns (output: seq<string>)
      ensures output == Clean(settings, lines, false)
    {
      output := [];
      var inBlock := false;
      for i := 0 to |lines|
        invariant Clean(settings, lines, false) == output + Clean(settings, lines[i..], inBlock)
      {
        var line := lines[i];
        assert lines[i..][0] == line && lines[i..][1..] == lines[i + 1..];
        var starts := MatchStart(line);
        if starts {
          inBlock := true;
          continue;
        }
        var ends := MatchEnd(line);
        if ends {
          inBlock := false;
          continue;
        }
        if inBlock { continue; }
        var foundDeprecated := false;
        for k := 0 to |settings.deprecated|
          invariant !foundDeprecated
          invariant forall m | 0 <= m < k :: !MatchesEntry(settings.deprecated[m], line)
        {
          if MatchesEntry(settings.deprecated[k], line) {
            foundDeprecated := true;
            break;
          }
        }
        if foundDeprecated { continue; }
        output := output + [line];
      }
    }

    method CleanupFile()
      requires file.Some?
      modifies this`file
      ensures file == Some(CleanText(settings, old(file).value))
    {
      var output := CleanLines(Split(file.value, NEWLINE));
      file := Some(Join(output, NEWLINE));
    }

    method Cleanup()
      modifies this`file
      ensures file == if old(file).None? then None else Some(CleanText(settings, old(file).value))
    {
      if file.None? { return; }
      CleanupFile();
    }

    method BlockLines(position: Position) returns (output: seq<string>)
      requires forall b | b in blocks :: Writable(settings, b)
      ensures output == LinesAt(settings, blocks, position)
    {
      output := [];
      for i := 0 to |blocks|
        invariant output == LinesAt(settings, blocks[..i], position)
      {
        LinesAtNext(settings, blocks, i, position);
        if blocks[i].position == position { output := output + Lines(settings, blocks[i]); }
      }
      assert blocks[..|blocks|] == blocks;
    }

    method Apply()
      requires forall b | b in blocks :: Writable(settings, b)
      modifies this`file
      ensures file == Some(Applied(settings, blocks, old(file)))
    {
      var cleanedUp := [];
      if file.Some? {
        CleanupFile();
        cleanedUp := CleanLines(Split(file.value, NEWLINE));
      }
      var top := BlockLines(Top);
      var bottom := BlockLines(Bottom);
      file := Some(Join(top + cleanedUp + bottom, NEWLINE));
    }
  }

  // ---------- Cleanup is a projection ----------

  lemma {:induction false} CleanFile(st: Settings, text: string)
    ensures var kept := Clean(st, Split(text, NEWLINE), false);
            && NoneManaged(st, kept) && AllWithout(kept, NEWLINE)
            && CleanedUp(st, Some(text)) == if kept == [] then Clean(st, [""], false) else kept
  {
    var kept := Clean(st, Split(text, NEWLINE), false);
    CleanLeavesNoneManaged(st, Split(text, NEWLINE), false);
    if kept != [] {
      SplitJoin(kept, NEWLINE);
      CleanUnmanaged(st, kept);
    }
  }

  /** Cleaning a second time changes nothing. */
  lemma CleanupIdempotent(st: Settings, text: string)
    ensures CleanText(st, CleanText(st, text)) == CleanText(st, text)
  {
    CleanFile(st, text);
    CleanLeavesNoneManaged(st, [""], false);
    assert Clean(st, [""][1..], false) == [];
  }

  /**
    * No line that reads as a delimiter, or that begins and ends as a deprecated entry does, survives, except
    * that an emptied file is one empty line.
    */
  lemma CleanupLeavesNoDelimiter(st: Settings, text: string, line: string)
    requires line in Split(CleanText(st, text), NEWLINE)
    requires || (exists d | d in st.all :: TrimSpace(line) == d.start || TrimSpace(line) == d.end)
             || exists e | e in st.deprecated :: HasPrefix(TrimSpace(line), e.key) && HasSuffix(TrimSpace(line), e.value)
    ensures line == "" && CleanText(st, text) == ""
  {
    assert IsManaged(st, line) by {
      if d :| d in st.all && (TrimSpace(line) == d.start || TrimSpace(line) == d.end) {
        assert MatchesStart(st, line) || MatchesEnd(st, line);
      }
    }
    CleanFile(st, text);
    var kept := Clean(st, Split(text, NEWLINE), false);
    if kept != [] { SplitJoin(kept, NEWLINE); }
  }

  // ---------- Apply ----------

  /** A delimiter that is written is recognised again, and its end is no start. */
  ghost predicate Delimited(st: Settings) {
    && st.delimiter.Some? && st.delimiter.value in st.all
    && var d := st.delimiter.value;
    && TrimSpace(d.start) == d.start && NEWLINE !in d.start
    && TrimSpace(d.end) == d.end && NEWLINE !in d.end
    && !MatchesStart(st, d.end)
  }

  ghost predicate AllDelimited(st: Settings, blocks: seq<Block>) {
    forall b | b in blocks :: b.entries != [] ==> Delimited(st)
  }

  /** The lines between the delimiters; an entry may take several. */
  function Inner(st: Settings, b: Block): seq<string> { SplitAll(Formatted(b.entries, st.spacer), NEWLINE) }

  /** No line of an entry escapes: each is managed or has no end delimiter before it that closes the block. */
  ghost predicate Contained(st: Settings, b: Block)
    requires st.delimiter.Some?
  {
    var lines := [st.delimiter.value.start] + Inner(st, b);
    forall i | 0 <= i < |lines| :: IsManaged(st, lines[i]) || InsideBlock(st, lines, i)
  }

  ghost predicate AllContained(st: Settings, blocks: seq<Block>)
    requires AllDelimited(st, blocks)
  {
    forall b | b in blocks && b.entries != [] && b.position != Elsewhere :: Contained(st, b)
  }

  ghost predicate WellFormed(st: Settings, blocks: seq<Block>) {
    AllDelimited(st, blocks) && AllContained(st, blocks)
  }

  /** An entry is contained when none of its lines reads as an end delimiter. */
  lemma NoEndIsContained(st: Settings, b: Block)
    requires Delimited(st)
    requires forall l | l in Inner(st, b) :: MatchesStart(st, l) || !MatchesEnd(st, l)
    ensures Contained(st, b)
  {
    var start, inner := st.delimiter.value.start, Inner(st, b);
    var lines := [start] + inner;
    assert MatchesStart(st, start);
    forall i | 0 <= i < |lines| ensures IsManaged(st, lines[i]) || InsideBlock(st, lines, i) {
      if i > 0 {
        forall k | 0 < k < i ensures MatchesStart(st, lines[k]) || !MatchesEnd(st, lines[k]) {
          assert lines[k] == inner[k - 1] && lines[k] in inner;
        }
        assert MatchesStart(st, lines[0]);
      }
    }
  }

  /** What cleaning leaves of the lines of a block. */
  ghost function Escaped(st: Settings, b: Block): seq<string>
    requires st.delimiter.Some?
  {
    Clean(st, [st.delimiter.value.start] + Inner(st, b), false)
  }

  lemma {:induction false} UserLinesNoneIff(st: Settings, lines: seq<string>, n: nat)
    requires n <= |lines|
    ensures UserLines(st, lines, n) == [] <==> forall i | 0 <= i < n :: IsManaged(st, lines[i]) || InsideBlock(st, lines, i)
  {
    if n > 0 { UserLinesNoneIff(st, lines, n - 1); }
  }

  lemma EscapedNoneIff(st: Settings, b: Block)
    requires st.delimiter.Some?
    ensures Escaped(st, b) == [] <==> Contained(st, b)
  {
    var lines := [st.delimiter.value.start] + Inner(st, b);
    CleanKeepsUserLines(st, lines, |lines|);
    assert lines[..|lines|] == lines;
    UserLinesNoneIff(st, lines, |lines|);
  }

  lemma {:induction false} FormattedLines(entries: seq<Entry>, spacer: string, l: string)
    requires l in SplitAll(Formatted(entries, spacer), NEWLINE)
    ensures exists e | e in entries :: l in Split(Format(e, spacer), NEWLINE)
  {
    if entries != [] {
      assert Formatted(entries, spacer)[1..] == Formatted(entries[1..], spacer);
      if l in Split(Format(entries[0], spacer), NEWLINE) {
        assert entries[0] in entries;
      } else {
        FormattedLines(entries[1..], spacer, l);
      }
    }
  }

  lemma LinesOfBlock(st: Settings, b: Block)
    requires b.entries != [] && Delimited(st)
    ensures SplitAll(Lines(st, b), NEWLINE) == [st.delimiter.value.start] + Inner(st, b) + [st.delimiter.value.end]
  {
    var d, formatted := st.delimiter.value, Formatted(b.entries, st.spacer);
    SplitAllConcat([d.start] + formatted, [d.end], NEWLINE);
    SplitAllConcat([d.start], formatted, NEWLINE);
    SplitAllSame([d.start], NEWLINE);
    SplitAllSame([d.end], NEWLINE);
  }

  /** A block cleans up to what escapes from it, and is closed. */
  lemma BlockLeaves(st: Settings, b: Block)
    requires b.entries != [] && Delimited(st)
    ensures Clean(st, SplitAll(Lines(st, b), NEWLINE), false) == Escaped(st, b)
    ensures !OpenAfter(st, SplitAll(Lines(st, b), NEWLINE), false)
  {
    var d := st.delimiter.value;
    var open := [d.start] + Inner(st, b);
    LinesOfBlock(st, b);
    CleanConcat(st, open, [d.end], false);
    assert [d.end][1..] == [];
    assert MatchesEnd(st, d.end);
  }

  ghost function EscapedAt(st: Settings, blocks: seq<Block>, position: Position): seq<string>
    requires AllDelimited(st, blocks)
  {
    if blocks == [] then []
    else
      var front, last := blocks[..|blocks| - 1], blocks[|blocks| - 1];
      EscapedAt(st, front, position) + if last.position == position && last.entries != [] then Escaped(st, last) else []
  }

  lemma {:induction false} BlocksLeave(st: Settings, blocks: seq<Block>, position: Position)
    requires AllDelimited(st, blocks)
    ensures forall b | b in blocks :: Writable(st, b)
    ensures Clean(st, SplitAll(LinesAt(st, blocks, position), NEWLINE), false) == EscapedAt(st, blocks, position)
    ensures !OpenAfter(st, SplitAll(LinesAt(st, blocks, position), NEWLINE), false)
  {
    if blocks != [] {
      var front, last := blocks[..|blocks| - 1], blocks[|blocks| - 1];
      assert blocks == front + [last];
      BlocksLeave(st, front, position);
      if last.position == position && last.entries != [] {
        BlockLeaves(st, last);
        var head, tail := LinesAt(st, front, position), Lines(st, last);
        SplitAllConcat(head, tail, NEWLINE);
        CleanConcat(st, SplitAll(head, NEWLINE), SplitAll(tail, NEWLINE), false);
      } else {
        assert LinesAt(st, blocks, position) == LinesAt(st, front, position);
      }
    }
  }

  ghost predicate ContainedAt(st: Settings, b: Block, position: Position)
    requires b.entries != [] ==> st.delimiter.Some?
  {
    b.entries != [] && b.position == position ==> Contained(st, b)
  }

  lemma ContainedMore(st: Settings, front: seq<Block>, last: Block, position: Position)
    requires AllDelimited(st, front + [last])
    ensures (forall b | b in front + [last] :: ContainedAt(st, b, position))
       <==> (forall b | b in front :: ContainedAt(st, b, position)) && ContainedAt(st, last, position)
  {
    assert last in front + [last] && forall b | b in front :: b in front + [last];
  }

  lemma {:induction false} EscapedAtNoneIff(st: Settings, blocks: seq<Block>, position: Position)
    requires AllDelimited(st, blocks)
    ensures EscapedAt(st, blocks, position) == [] <==> forall b | b in blocks :: ContainedAt(st, b, position)
  {
    if blocks != [] {
      var front, last := blocks[..|blocks| - 1], blocks[|blocks| - 1];
      assert blocks == front + [last];
      EscapedAtNoneIff(st, front, position);
      if last.entries != [] { EscapedNoneIff(st, last); }
      ContainedMore(st, front, last, position);
    }
  }

  lemma AllContainedIff(st: Settings, blocks: seq<Block>)
    requires AllDelimited(st, blocks)
    ensures AllContained(st, blocks) <==> EscapedAt(st, blocks, Top) == [] && EscapedAt(st, blocks, Bottom) == []
  {
    EscapedAtNoneIff(st, blocks, Top);
    EscapedAtNoneIff(st, blocks, Bottom);
    assert forall b | b in blocks && b.entries != [] && b.position != Elsewhere ::
        Contained(st, b) <==> ContainedAt(st, b, Top) && ContainedAt(st, b, Bottom);
  }

  /** Around the user's own lines: what cleaning leaves of a file written by Apply. */
  ghost function Left(st: Settings, blocks: seq<Block>, user: seq<string>): seq<string>
    requires AllDelimited(st, blocks)
  {
    EscapedAt(st, blocks, Top) + user + EscapedAt(st, blocks, Bottom)
  }

  /** The lines of a file written by Apply clean up to the user's own lines and what escapes from the blocks. */
  lemma CleanApplied(st: Settings, blocks: seq<Block>, user: seq<string>)
    requires AllDelimited(st, blocks) && NoneManaged(st, user) && AllWithout(user, NEWLINE)
    ensures forall b | b in blocks :: Writable(st, b)
    ensures var all := LinesAt(st, blocks, Top) + user + LinesAt(st, blocks, Bottom);
            Clean(st, Split(Join(all, NEWLINE), NEWLINE), false)
              == if all == [] then Clean(st, [""], false) else Left(st, blocks, user)
  {
    BlocksLeave(st, blocks, Top);
    BlocksLeave(st, blocks, Bottom);
    var top, bottom := LinesAt(st, blocks, Top), LinesAt(st, blocks, Bottom);
    var all := top + user + bottom;
    if all != [] {
      SplitJoinAll(all, NEWLINE);
      SplitAllConcat(top + user, bottom, NEWLINE);
      SplitAllConcat(top, user, NEWLINE);
      SplitAllSame(user, NEWLINE);
      CleanConcat(st, SplitAll(top, NEWLINE) + user, SplitAll(bottom, NEWLINE), false);
      CleanConcat(st, SplitAll(top, NEWLINE), user, false);
      CleanUnmanaged(st, user);
    }
  }

  lemma CleanEmptyLine(st: Settings)
    ensures Clean(st, [""], false) == if IsManaged(st, "") then [] else [""]
  {
    assert [""][1..] == [];
  }

  lemma CleanedUpIsUser(st: Settings, text: string)
    ensures var user := CleanedUp(st, Some(text));
            && NoneManaged(st, user) && AllWithout(user, NEWLINE)
            && Join(user, NEWLINE) == CleanText(st, text)
            && (user == [] ==> IsManaged(st, "") && CleanText(st, text) == "")
  {
    CleanFile(st, text);
    CleanEmptyLine(st);
  }

  /** Nothing is written when no block at the top or the bottom has an entry; then nothing can escape either. */
  lemma {:induction false} NothingWritten(st: Settings, blocks: seq<Block>, position: Position)
    requires AllDelimited(st, blocks)
    ensures forall b | b in blocks :: Writable(st, b)
    ensures LinesAt(st, blocks, position) == [] ==> EscapedAt(st, blocks, position) == []
  {
    if blocks != [] {
      var front := blocks[..|blocks| - 1];
      assert blocks == front + [blocks[|blocks| - 1]];
      NothingWritten(st, front, position);
    }
  }

  /** What is left after an apply: the user's lines and what escapes, as the lines that a cleanup keeps. */
  lemma LeftByApply(st: Settings, blocks: seq<Block>, text: string)
    requires AllDelimited(st, blocks)
    ensures forall b | b in blocks :: Writable(st, b)
    ensures var left := Left(st, blocks, CleanedUp(st, Some(text)));
            && NoneManaged(st, left) && AllWithout(left, NEWLINE)
            && CleanText(st, Applied(st, blocks, Some(text))) == Join(left, NEWLINE)
            && (left != [] ==> CleanedUp(st, Some(Applied(st, blocks, Some(text)))) == left)
            && (left == CleanedUp(st, Some(text)) <==> AllContained(st, blocks))
  {
    var user := CleanedUp(st, Some(text));
    CleanedUpIsUser(st, text);
    CleanApplied(st, blocks, user);
    CleanEmptyLine(st);
    NothingWritten(st, blocks, Top);
    NothingWritten(st, blocks, Bottom);
    AllContainedIff(st, blocks);
    CleanFile(st, Applied(st, blocks, Some(text)));
    if AllContained(st, blocks) { assert [] + user + [] == user; }
  }

  lemma SameTextSameLines(st: Settings, a: seq<string>, b: seq<string>)
    requires NoneManaged(st, a) && AllWithout(a, NEWLINE) && AllWithout(b, NEWLINE)
    requires a != [] && (b == [] ==> IsManaged(st, "")) && Join(a, NEWLINE) == Join(b, NEWLINE)
    ensures a == b
  {
    SplitJoin(a, NEWLINE);
    assert a[0] in a;
    if b != [] { SplitJoin(b, NEWLINE); }
  }

  /** On an existing file, cleaning up after Apply leaves what cleaning up alone leaves exactly when no entry escapes. */
  lemma {:induction false} CleanupUndoesApplyIff(st: Settings, blocks: seq<Block>, text: string)
    requires AllDelimited(st, blocks)
    ensures forall b | b in blocks :: Writable(st, b)
    ensures CleanText(st, Applied(st, blocks, Some(text))) == CleanText(st, text) <==> AllContained(st, blocks)
  {
    var user := CleanedUp(st, Some(text));
    CleanedUpIsUser(st, text);
    LeftByApply(st, blocks, text);
    if CleanText(st, Applied(st, blocks, Some(text))) == CleanText(st, text) && Left(st, blocks, user) != [] {
      SameTextSameLines(st, Left(st, blocks, user), user);
    }
  }

  lemma MoreLinesShow(top: seq<string>, a: seq<string>, b: seq<string>, bottom: seq<string>)
    requires AllWithout(a, NEWLINE) && AllWithout(b, NEWLINE) && |a| != |b| && top + bottom != []
    ensures Join(top + a + bottom, NEWLINE) != Join(top + b + bottom, NEWLINE)
  {
    SplitJoinAll(top + a + bottom, NEWLINE);
    SplitJoinAll(top + b + bottom, NEWLINE);
    SplitAllConcat(top + a, bottom, NEWLINE);
    SplitAllConcat(top + b, bottom, NEWLINE);
    SplitAllConcat(top, a, NEWLINE);
    SplitAllConcat(top, b, NEWLINE);
    SplitAllSame(a, NEWLINE);
    SplitAllSame(b, NEWLINE);
  }

  /** On an existing file, applying twice is applying once exactly when no entry escapes. */
  lemma {:induction false} ApplyIdempotentIff(st: Settings, blocks: seq<Block>, text: string)
    requires AllDelimited(st, blocks)
    ensures forall b | b in blocks :: Writable(st, b)
    ensures Applied(st, blocks, Some(Applied(st, blocks, Some(text)))) == Applied(st, blocks, Some(text))
       <==> AllContained(st, blocks)
  {
    var user := CleanedUp(st, Some(text));
    CleanedUpIsUser(st, text);
    LeftByApply(st, blocks, text);
    var left := Left(st, blocks, user);
    if AllContained(st, blocks) {
      // CleanedUp depends on the file only through its cleaned text.
      CleanupUndoesApplyIff(st, blocks, text);
      assert CleanedUp(st, Some(Applied(st, blocks, Some(text)))) == user;
    } else {
      assert |left| > |user| by { AllContainedIff(st, blocks); }
      NothingWritten(st, blocks, Top);
      NothingWritten(st, blocks, Bottom);
      AllContainedIff(st, blocks);
      MoreLinesShow(LinesAt(st, blocks, Top), left, user, LinesAt(st, blocks, Bottom));
    }
  }

  /** A file written from nothing reads back as no line, or as one empty line. */
  lemma FirstReadsBackEmpty(st: Settings, blocks: seq<Block>)
    requires WellFormed(st, blocks)
    ensures forall b | b in blocks :: Writable(st, b)
    ensures CleanText(st, Applied(st, blocks, None)) == ""
    ensures CleanedUp(st, Some(Applied(st, blocks, None))) == if IsManaged(st, "") then [] else [""]
  {
    BlocksLeave(st, blocks, Top);
    AllContainedIff(st, blocks);
    assert LinesAt(st, blocks, Top) + [] == LinesAt(st, blocks, Top);
    CleanApplied(st, blocks, []);
    assert Left(st, blocks, []) == [];
    CleanEmptyLine(st);
  }

  /** The one way a file gains an empty line: it did not exist, and the empty text reads back as one line. */
  lemma {:induction false} ApplyToMissingFile(st: Settings, blocks: seq<Block>)
    requires WellFormed(st, blocks)
    ensures forall b | b in blocks :: Writable(st, b)
    ensures var first := Applied(st, blocks, None);
            var second := Applied(st, blocks, Some(first));
            var none := LinesAt(st, blocks, Top) + LinesAt(st, blocks, Bottom) == [];
            && Applied(st, blocks, Some(second)) == second
            && (first == second <==> none || IsManaged(st, ""))
  {
    FirstReadsBackEmpty(st, blocks);
    var top, bottom := LinesAt(st, blocks, Top), LinesAt(st, blocks, Bottom);
    ApplyIdempotentIff(st, blocks, Applied(st, blocks, None));
    assert top + [] + bottom == top + bottom;
    if top + bottom != [] && !IsManaged(st, "") { MoreLinesShow(top, [""], [], bottom); }
    if top + bottom == [] { assert top + [""] + bottom == [""]; }
  }

  // ---------- What Apply writes ----------

  /** An entry of one line without blanks at its ends; without a value, the spacer is blank. */
  ghost predicate PlainEntry(e: Entry, spacer: string) {
    && e.key != "" && IsTrimmed(e.key) && IsTrimmed(e.value)
    && NEWLINE !in e.key && NEWLINE !in e.value && NEWLINE !in spacer
    && (e.value == "" ==> AllBlank(spacer))
  }

  ghost predicate AllPlain(st: Settings, blocks: seq<Block>) {
    forall b | b in blocks :: forall e | e in b.entries :: PlainEntry(e, st.spacer)
  }

  /** The line of an entry: the key, the spacer and the value, or the key alone. */
  function EntryLine(e: Entry, spacer: string): string { if e.value == "" then e.key else e.key + spacer + e.value }

  /** The lines of a block: those of its entries in order, between the delimiters; none without entries. */
  function BlockText(st: Settings, b: Block): seq<string>
    requires st.delimiter.Some?
  {
    if b.entries == [] then []
    else
      var entries := seq(|b.entries|, i requires 0 <= i < |b.entries| => EntryLine(b.entries[i], st.spacer));
      [st.delimiter.value.start] + entries + [st.delimiter.value.end]
  }

  /** The lines of the blocks at a position, in block order. */
  function BlocksText(st: Settings, blocks: seq<Block>, position: Position): seq<string>
    requires st.delimiter.Some?
  {
    if blocks == [] then []
    else
      var front, last := blocks[..|blocks| - 1], blocks[|blocks| - 1];
      BlocksText(st, front, position) + if last.position == position then BlockText(st, last) else []
  }

  lemma ShortBlocks(st: Settings, position: Position, e: Entry, f: Entry)
    requires st.delimiter.Some?
    ensures var d := st.delimiter.value;
            && BlockText(st, Block(position, [e])) == [d.start, EntryLine(e, st.spacer), d.end]
            && BlockText(st, Block(position, [e, f]))
                 == [d.start, EntryLine(e, st.spacer), EntryLine(f, st.spacer), d.end]
  {
  }

  lemma OneBlock(st: Settings, b: Block, position: Position)
    requires st.delimiter.Some?
    ensures BlocksText(st, [b], position) == if b.position == position then BlockText(st, b) else []
  {
    assert [b][..0] == [];
    assert [] + BlockText(st, b) == BlockText(st, b);
  }

  lemma TwoBlocks(st: Settings, a: Block, b: Block, position: Position)
    requires st.delimiter.Some? && a.position != b.position
    ensures BlocksText(st, [a, b], position)
         == if a.position == position then BlockText(st, a) else if b.position == position then BlockText(st, b) else []
  {
    OneBlock(st, a, position);
    assert [a, b][..1] == [a];
    assert BlockText(st, a) + [] == BlockText(st, a) && [] + BlockText(st, b) == BlockText(st, b);
  }

  lemma FormatIsEntryLine(e: Entry, spacer: string)
    requires PlainEntry(e, spacer)
    ensures Format(e, spacer) == EntryLine(e, spacer) && NEWLINE !in EntryLine(e, spacer)
  {
    var line := EntryLine(e, spacer);
    if e.value == "" {
      TrimSurrounded("", e.key, spacer);
      assert "" + e.key + spacer == e.key + spacer + e.value;
    } else {
      assert line[0] == e.key[0] && line[|line| - 1] == e.value[|e.value| - 1];
      TrimSurrounded("", line, "");
      assert "" + line + "" == line;
    }
  }

  lemma {:induction false} FormattedIsEntryLines(entries: seq<Entry>, spacer: string)
    requires forall e | e in entries :: PlainEntry(e, spacer)
    ensures |Formatted(entries, spacer)| == |entries| && AllWithout(Formatted(entries, spacer), NEWLINE)
    ensures forall i | 0 <= i < |entries| :: Formatted(entries, spacer)[i] == EntryLine(entries[i], spacer)
  {
    if entries != [] {
      assert entries[0] in entries;
      FormatIsEntryLine(entries[0], spacer);
      assert forall e | e in entries[1..] :: e in entries;
      FormattedIsEntryLines(entries[1..], spacer);
    }
  }

  lemma BlockIsText(st: Settings, b: Block)
    requires st.delimiter.Some? && NEWLINE !in st.delimiter.value.start && NEWLINE !in st.delimiter.value.end
    requires forall e | e in b.entries :: PlainEntry(e, st.spacer)
    ensures Lines(st, b) == BlockText(st, b) && AllWithout(BlockText(st, b), NEWLINE)
  {
    FormattedIsEntryLines(b.entries, st.spacer);
    if b.entries != [] {
      var entries := seq(|b.entries|, i requires 0 <= i < |b.entries| => EntryLine(b.entries[i], st.spacer));
      assert entries == Formatted(b.entries, st.spacer);
    }
  }

  lemma {:induction false} BlocksAreText(st: Settings, blocks: seq<Block>, position: Position)
    requires Delimited(st) && AllPlain(st, blocks)
    ensures forall b | b in blocks :: Writable(st, b)
    ensures LinesAt(st, blocks, position) == BlocksText(st, blocks, position)
    ensures AllWithout(BlocksText(st, blocks, position), NEWLINE)
  {
    if blocks != [] {
      var front, last := blocks[..|blocks| - 1], blocks[|blocks| - 1];
      assert last in blocks && forall b | b in front :: b in blocks;
      BlocksAreText(st, front, position);
      BlockIsText(st, last);
    }
  }

  /** What Apply keeps of a file: the user's own lines, or one empty line when there are none and it is not managed. */
  ghost function KeptLines(st: Settings, file: Option<string>): seq<string> {
    if file.None? then []
    else
      var lines := Split(file.value, NEWLINE);
      var kept := UserLines(st, lines, |lines|);
      if kept == [] && !IsManaged(st, "") then [""] else kept
  }

  lemma KeptIsCleanedUp(st: Settings, file: Option<string>)
    ensures KeptLines(st, file) == CleanedUp(st, file) && AllWithout(KeptLines(st, file), NEWLINE)
  {
    if file.Some? {
      var lines := Split(file.value, NEWLINE);
      CleanKeepsUserLines(st, lines, |lines|);
      assert lines[..|lines|] == lines;
      CleanFile(st, file.value);
      CleanEmptyLine(st);
    }
  }

  /**
    * The applied file, line by line: the top blocks, what is kept of the file, and the bottom blocks, each
    * block between the written delimiters, with the key, the spacer and the value of each entry in order.
    */
  lemma {:induction false} AppliedLines(st: Settings, blocks: seq<Block>, file: Option<string>)
    requires Delimited(st) && AllPlain(st, blocks)
    ensures forall b | b in blocks :: Writable(st, b)
    ensures var all := BlocksText(st, blocks, Top) + KeptLines(st, file) + BlocksText(st, blocks, Bottom);
            Split(Applied(st, blocks, file), NEWLINE) == if all == [] then [""] else all
  {
    BlocksAreText(st, blocks, Top);
    BlocksAreText(st, blocks, Bottom);
    KeptIsCleanedUp(st, file);
    var all := BlocksText(st, blocks, Top) + KeptLines(st, file) + BlocksText(st, blocks, Bottom);
    if all != [] { SplitJoin(all, NEWLINE); }
  }

  /** One block on top and one at the bottom. */
  lemma TopAndBottom(st: Settings, a: Block, b: Block, file: Option<string>)
    requires Delimited(st) && AllPlain(st, [a, b]) && a.position == Top && b.position == Bottom && a.entries != []
    ensures forall x | x in [a, b] :: Writable(st, x)
    ensures Split(Applied(st, [a, b], file), NEWLINE) == BlockText(st, a) + KeptLines(st, file) + BlockText(st, b)
  {
    AppliedLines(st, [a, b], file);
    TwoBlocks(st, a, b, Top);
    TwoBlocks(st, a, b, Bottom);
  }

  /** One block at the bottom. */
  lemma OnlyBottom(st: Settings, b: Block, file: Option<string>)
    requires Delimited(st) && AllPlain(st, [b]) && b.position == Bottom && b.entries != []
    ensures forall x | x in [b] :: Writable(st, x)
    ensures Split(Applied(st, [b], file), NEWLINE) == KeptLines(st, file) + BlockText(st, b)
  {
    AppliedLines(st, [b], file);
    OneBlock(st, b, Top);
    OneBlock(st, b, Bottom);
    assert [] + KeptLines(st, file) == KeptLines(st, file);
  }

  lemma {:induction false} EntryIsWritten(st: Settings, blocks: seq<Block>, b: Block, e: Entry)
    requires st.delimiter.Some? && b in blocks && e in b.entries && b.position != Elsewhere
    ensures EntryLine(e, st.spacer) in BlocksText(st, blocks, b.position)
  {
    var front, last := blocks[..|blocks| - 1], blocks[|blocks| - 1];
    assert blocks == front + [last];
    if b in front {
      EntryIsWritten(st, front, b, e);
    } else {
      var i :| 0 <= i < |b.entries| && b.entries[i] == e;
      assert BlockText(st, b)[i + 1] == EntryLine(e, st.spacer);
    }
  }

  /** Every entry of a top or bottom block has its line in the applied file. */
  lemma {:induction false} AppliedHoldsEntry(st: Settings, blocks: seq<Block>, file: Option<string>, b: Block, e: Entry)
    requires Delimited(st) && AllPlain(st, blocks) && b in blocks && e in b.entries && b.position != Elsewhere
    ensures forall b | b in blocks :: Writable(st, b)
    ensures EntryLine(e, st.spacer) in Split(Applied(st, blocks, file), NEWLINE)
  {
    AppliedLines(st, blocks, file);
    EntryIsWritten(st, blocks, b, e);
  }

  /** Settings that list the entry as deprecated take its line out again. */
  lemma DeprecatedEntryIsRemoved(st: Settings, e: Entry, spacer: string, text: string)
    requires PlainEntry(e, spacer) && e in st.deprecated
    ensures EntryLine(e, spacer) !in Split(CleanText(st, text), NEWLINE)
  {
    var line := EntryLine(e, spacer);
    if line in Split(CleanText(st, text), NEWLINE) {
      LineReadsAsEntry(e, spacer);
      CleanupLeavesNoDelimiter(st, text, line);
    }
  }

  lemma LineReadsAsEntry(e: Entry, spacer: string)
    requires PlainEntry(e, spacer)
    ensures EntryLine(e, spacer) != "" && TrimSpace(EntryLine(e, spacer)) == EntryLine(e, spacer)
    ensures HasPrefix(EntryLine(e, spacer), e.key) && HasSuffix(EntryLine(e, spacer), e.value)
  {
    var line := EntryLine(e, spacer);
    TrimSurrounded("", line, "");
    assert "" + line + "" == line;
  }

  lemma CleanTextOfLines(st: Settings, lines: seq<string>)
    requires lines != [] && AllWithout(lines, NEWLINE)
    ensures CleanText(st, Join(lines, NEWLINE)) == Join(Clean(st, lines, false), NEWLINE)
  {
    SplitJoin(lines, NEWLINE);
  }

  const LEAKY: Settings := Settings(Some(Delimiter("S", "E")), [Delimiter("S", "E")], "", [])

  const LEAKY_BLOCK: Block := Block(Top, [Entry("E", ""), Entry("x", "")])

  lemma LeakyMarkers()
    ensures MatchesStart(LEAKY, "S") && MatchesEnd(LEAKY, "E") && !MatchesStart(LEAKY, "E")
    ensures !IsManaged(LEAKY, "x") && !IsManaged(LEAKY, "u")
  {
    assert TrimSpace("S") == "S" && TrimSpace("E") == "E" && TrimSpace("x") == "x" && TrimSpace("u") == "u";
    assert LEAKY.all[0] in LEAKY.all;
  }

  lemma OneBlockLines(st: Settings, b: Block, position: Position)
    requires Writable(st, b)
    ensures forall x | x in [b] :: Writable(st, x)
    ensures LinesAt(st, [b], position) == if b.position == position then Lines(st, b) else []
  {
    LinesAtNext(st, [b], 0, position);
    assert [b][..1] == [b] && [b][..0] == [];
  }

  lemma LeakyLines()
    ensures Lines(LEAKY, LEAKY_BLOCK) == ["S", "E", "x", "E"]
  {
    LeakyMarkers();
    assert LEAKY_BLOCK.entries[1..][1..] == [];
    assert Format(Entry("E", ""), "") == "E" && Format(Entry("x", ""), "") == "x";
  }

  lemma LeakyWrites()
    ensures Applied(LEAKY, [LEAKY_BLOCK], Some("u")) == Join(["S", "E", "x", "E", "u"], NEWLINE)
  {
    LeakyMarkers();
    SplitNoSeparator("u", NEWLINE);
    CleanUnmanaged(LEAKY, ["u"]);
    assert CleanedUp(LEAKY, Some("u")) == ["u"];
    LeakyLines();
    OneBlockLines(LEAKY, LEAKY_BLOCK, Top);
    OneBlockLines(LEAKY, LEAKY_BLOCK, Bottom);
    assert ["S", "E", "x", "E"] + ["u"] + [] == ["S", "E", "x", "E", "u"];
  }

  lemma LeakyFront()
    ensures Clean(LEAKY, ["S", "E"] + ["x"], false) == ["x"] && !OpenAfter(LEAKY, ["S", "E"] + ["x"], false)
  {
    LeakyMarkers();
    CleanUnmanaged(LEAKY, ["x"]);
    assert ["S", "E"][1..] == ["E"] && ["E"][1..] == [];
    assert Clean(LEAKY, ["S", "E"], false) == [] && !OpenAfter(LEAKY, ["S", "E"], false);
    CleanConcat(LEAKY, ["S", "E"], ["x"], false);
  }

  lemma LeakyCleans()
    ensures Clean(LEAKY, ["S", "E", "x", "E", "u"], false) == ["x", "u"]
  {
    LeakyMarkers();
    LeakyFront();
    CleanUnmanaged(LEAKY, ["u"]);
    assert ["E", "u"][1..] == ["u"];
    assert Clean(LEAKY, ["E", "u"], false) == ["u"];
    CleanConcat(LEAKY, ["S", "E"] + ["x"], ["E", "u"], false);
    assert ["S", "E", "x", "E", "u"] == ["S", "E"] + ["x"] + ["E", "u"];
  }

  /** Why WellFormed is asked for: an entry that reads as the end delimiter leaves its successors behind. */
  lemma EntryLikeEndLeaks()
    ensures CleanText(LEAKY, Applied(LEAKY, [LEAKY_BLOCK], Some("u"))) == Join(["x", "u"], NEWLINE)
    ensures CleanText(LEAKY, "u") == "u"
  {
    LeakyWrites();
    LeakyCleans();
    CleanTextOfLines(LEAKY, ["S", "E", "x", "E", "u"]);
    LeakyMarkers();
    CleanTextOfLines(LEAKY, ["u"]);
    CleanUnmanaged(LEAKY, ["u"]);
  }
}
