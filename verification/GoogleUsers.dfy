/** The google_users file of internal/accounts: one user name per line, kept as an ordered set. */
module GoogleUsers {
  import opened Sequences
  import opened Text

  /** A line scanner drops one carriage return from the end of each line. */
  function DropReturn(line: string): string {
    if line != "" && line[|line| - 1] == '\r' then line[..|line| - 1] else line
  }

  /** The lines that a line scanner yields: a last line without text is not reported. */
  function Scanned(text: string): seq<string> {
    var parts := Split(text, NEWLINE);
    var full := if parts[|parts| - 1] == "" then parts[..|parts| - 1] else parts;
    seq(|full|, i requires 0 <= i < |full| => DropReturn(full[i]))
  }

  function Added(file: Option<string>, name: string): Option<string> {
    var text := Content(file);
    if name in Scanned(text) then Some(text) else Some(text + (name + [NEWLINE]))
  }

  function RemoveLine(lines: seq<string>, name: string): seq<string> {
    if lines == [] then [] else if lines[0] == name then lines[1..] else [lines[0]] + RemoveLine(lines[1..], name)
  }

  function Removed(file: Option<string>, name: string): Option<string> {
    if file.None? then None else Some(Join(RemoveLine(Split(file.value, NEWLINE), name), NEWLINE))
  }

  function Listed(file: Option<string>): seq<string> {
    if file.None? then [] else Without(Split(file.value, NEWLINE), "")
  }

  class Store {
    var file: Option<string>

    constructor ()
      ensures file == None
    {
      file := None;
    }

    method AddToGUsers(name: string)
      modifies this
      ensures file == Added(old(file), name)
    {
      if file.None? { file := Some(""); }
      var lines := Scanned(file.value);
      for i := 0 to |lines|
        invariant name !in lines[..i]
      {
        if lines[i] == name { return; }
      }
      assert lines[..|lines|] == lines;
      file := Some(file.value + (name + [NEWLINE]));
    }

    method RemoveFromGUsers(name: string)
      modifies this
      ensures file == Removed(old(file), name)
    {
      if file.None? { return; }
      var lines := Split(file.value, NEWLINE);
      for i := 0 to |lines|
        invariant name !in lines[..i]
      {
        if lines[i] != name { continue; }
        RemoveLineAt(lines, name, i);
        file := Some(Join(lines[..i] + lines[i + 1..], NEWLINE));
        return;
      }
      assert lines[..|lines|] == lines;
      RemoveLineAbsent(lines, name);
      JoinSplit(file.value, NEWLINE);
    }

    method ListGoogleUsers() returns (names: seq<string>)
      ensures names == Listed(file)
      ensures names == if file.None? then [] else Without(Split(file.value, NEWLINE), "")
    {
      if file.None? { return []; }
      var all := Split(file.value, NEWLINE);
      names := [];
      for i := 0 to |all|
        invariant Without(all, "") == names + Without(all[i..], "")
      {
        assert all[i..][0] == all[i] && all[i..][1..] == all[i + 1..];
        if all[i] != "" { names := names + [all[i]]; }
      }
    }
  }

  // ---------- The file as an ordered set ----------

  datatype Op = Add(name: string) | Remove(name: string)

  function Step(file: Option<string>, op: Op): Option<string> {
    match op
    case Add(name) => Added(file, name)
    case Remove(name) => Removed(file, name)
  }

  function Run(ops: seq<Op>): Option<string> {
    if ops == [] then None else Step(Run(ops[..|ops| - 1]), ops[|ops| - 1])
  }

  /** The reference: a list without duplicates, extended at the end. */
  function SetStep(names: seq<string>, op: Op): seq<string> {
    match op
    case Add(name) => if name in names then names else names + [name]
    case Remove(name) => Without(names, name)
  }

  function SetRun(ops: seq<Op>): seq<string> {
    if ops == [] then [] else SetStep(SetRun(ops[..|ops| - 1]), ops[|ops| - 1])
  }

  predicate EndsInReturn(name: string) { name != "" && name[|name| - 1] == '\r' }

  /** A user name: not empty, on one line, and not cut by the line scanner. */
  ghost predicate IsName(name: string) { name != "" && NEWLINE !in name && !EndsInReturn(name) }

  ghost predicate AllNames(names: seq<string>) { forall n | n in names :: IsName(n) }

  ghost predicate Represents(file: Option<string>, names: seq<string>) {
    && NoDuplicates(names) && AllNames(names)
    && if file.None? then names == [] else file.value == Terminated(names)
  }

  lemma SplitNames(names: seq<string>)
    requires AllNames(names)
    ensures Split(Terminated(names), NEWLINE) == names + [""]
    ensures Scanned(Terminated(names)) == names
  {
    SplitTerminated(names);
    SplitAllSame(names, NEWLINE);
    ScannedLines(names);
    forall i | 0 <= i < |names| ensures DropReturn(names[i]) == names[i] { assert names[i] in names; }
    assert Scanned(Terminated(names)) == names;
  }

  lemma TerminatedMore(names: seq<string>, name: string)
    ensures Terminated(names + [name]) == Terminated(names) + (name + [NEWLINE])
  {
    TerminatedConcat(names, [name]);
    assert [name][1..] == [] && name + [NEWLINE] + "" == name + [NEWLINE];
  }

  lemma NoDuplicatesMore(names: seq<string>, name: string)
    requires NoDuplicates(names) && name !in names
    ensures NoDuplicates(names + [name])
  {
  }

  lemma AddRepresents(file: Option<string>, names: seq<string>, name: string)
    requires Represents(file, names) && IsName(name)
    ensures Represents(Added(file, name), SetStep(names, Add(name)))
  {
    SplitNames(names);
    assert Content(file) == Terminated(names);
    if name !in names {
      TerminatedMore(names, name);
      NoDuplicatesMore(names, name);
      assert AllNames(names + [name]);
    }
  }

  lemma {:induction false} RemoveLineOnce(names: seq<string>, tail: seq<string>, name: string)
    requires NoDuplicates(names) && name !in tail
    ensures RemoveLine(names + tail, name) == Without(names, name) + tail
  {
    if names == [] {
      assert names + tail == tail;
      RemoveLineAbsent(tail, name);
    } else {
      assert (names + tail)[1..] == names[1..] + tail;
      if names[0] == name {
        WithoutAbsent(names[1..], name);
      } else {
        RemoveLineOnce(names[1..], tail, name);
      }
    }
  }

  lemma {:induction false} RemoveLineAbsent(lines: seq<string>, name: string)
    requires name !in lines
    ensures RemoveLine(lines, name) == lines
  {
    if lines != [] { RemoveLineAbsent(lines[1..], name); }
  }

  lemma {:induction false} RemoveLineAt(lines: seq<string>, name: string, i: nat)
    requires i < |lines| && name !in lines[..i] && lines[i] == name
    ensures RemoveLine(lines, name) == lines[..i] + lines[i + 1..]
  {
    if i > 0 {
      assert lines[..i][0] == lines[0];
      assert lines[1..][..i - 1] == lines[..i][1..];
      RemoveLineAt(lines[1..], name, i - 1);
    }
  }

  lemma {:induction false} JoinNames(names: seq<string>)
    ensures Join(names + [""], NEWLINE) == Terminated(names)
  {
    if names != [] {
      assert (names + [""])[1..] == names[1..] + [""];
      JoinNames(names[1..]);
    }
  }

  lemma RemoveRepresents(file: Option<string>, names: seq<string>, name: string)
    requires Represents(file, names) && IsName(name)
    ensures Represents(Removed(file, name), SetStep(names, Remove(name)))
  {
    WithoutNoDuplicates(names, name);
    WithoutMembers(names, name);
    assert AllNames(Without(names, name));
    if file.Some? {
      SplitNames(names);
      RemoveLineOnce(names, [""], name);
      JoinNames(Without(names, name));
    }
  }

  /** Every run of adds and removes on a missing file is a run on an ordered set. */
  lemma {:induction false} FileRefinesOrderedSet(ops: seq<Op>)
    requires forall op | op in ops :: IsName(op.name)
    ensures Represents(Run(ops), SetRun(ops))
    ensures Listed(Run(ops)) == SetRun(ops)
  {
    if ops != [] {
      var before, op := ops[..|ops| - 1], ops[|ops| - 1];
      FileRefinesOrderedSet(before);
      match op
      case Add(name) => AddRepresents(Run(before), SetRun(before), name);
      case Remove(name) => RemoveRepresents(Run(before), SetRun(before), name);
    }
    var names := SetRun(ops);
    if Run(ops).Some? {
      SplitNames(names);
      WithoutConcat(names, [""], "");
      WithoutAbsent(names, "");
      assert [""][1..] == [];
    }
  }

  lemma ScannedLines(lines: seq<string>)
    requires AllWithout(lines, NEWLINE)
    ensures |Scanned(Terminated(lines))| == |lines|
    ensures forall i | 0 <= i < |lines| :: Scanned(Terminated(lines))[i] == DropReturn(lines[i])
  {
    SplitTerminated(lines);
    SplitAllSame(lines, NEWLINE);
    assert (lines + [""])[..|lines|] == lines;
  }

  // ---------- Adding a name twice ----------

  /** What follows the last line break. */
  function LastLine(text: string): string {
    var parts := Split(text, NEWLINE);
    parts[|parts| - 1]
  }

  /** A name that is added goes to the last line, whatever that holds. */
  lemma AddedLines(text: string, name: string)
    requires NEWLINE !in name
    ensures var parts := Split(text, NEWLINE);
            Split(text + (name + [NEWLINE]), NEWLINE) == parts[..|parts| - 1] + [LastLine(text) + name] + [""]
  {
    assert text + (name + [NEWLINE]) == text + name + [NEWLINE] + "";
    SplitConcat(text + name, NEWLINE, "");
    SplitAppend(text, name, NEWLINE);
  }

  lemma {:induction false} ScannedAsLines(text: string, lines: seq<string>)
    requires Split(text, NEWLINE) == lines + [""]
    ensures forall n :: n in Scanned(text) <==> exists l | l in lines :: DropReturn(l) == n
  {
    var scanned := Scanned(text);
    assert (lines + [""])[..|lines|] == lines;
    assert |scanned| == |lines| && forall i | 0 <= i < |lines| :: scanned[i] == DropReturn(lines[i]);
    forall n ensures n in scanned <==> exists l | l in lines :: DropReturn(l) == n {
      if n in scanned {
        var i :| 0 <= i < |scanned| && scanned[i] == n;
        assert lines[i] in lines;
      }
      if l :| l in lines && DropReturn(l) == n {
        var i :| 0 <= i < |lines| && lines[i] == l;
        assert scanned[i] == n;
      }
    }
  }

  /** Every line but an unterminated last one is scanned. */
  lemma FullLinesAreScanned(text: string, l: string)
    requires var parts := Split(text, NEWLINE); l in parts[..|parts| - 1]
    ensures DropReturn(l) in Scanned(text)
  {
    var parts := Split(text, NEWLINE);
    var i :| 0 <= i < |parts| - 1 && parts[i] == l;
    assert Scanned(text)[i] == DropReturn(l);
  }

  /** A name that was not scanned is scanned after adding it exactly when the last line, with the name, reads as the name. */
  lemma AddedIsScannedIff(text: string, name: string)
    requires NEWLINE !in name && name !in Scanned(text)
    ensures name in Scanned(text + (name + [NEWLINE])) <==> DropReturn(LastLine(text) + name) == name
  {
    var parts := Split(text, NEWLINE);
    var full, merged := parts[..|parts| - 1], LastLine(text) + name;
    AddedLines(text, name);
    ScannedAsLines(text + (name + [NEWLINE]), full + [merged]);
    assert merged in full + [merged];
    forall l | l in full ensures DropReturn(l) != name { FullLinesAreScanned(text, l); }
  }

  /**
    * For any file, adding a name twice is adding it once exactly when it was there, or the last line with
    * the name appended reads as the name.
    */
  lemma AddIdempotentIff(file: Option<string>, name: string)
    requires NEWLINE !in name
    ensures Added(Added(file, name), name) == Added(file, name)
       <==> name in Scanned(Content(file)) || DropReturn(LastLine(Content(file)) + name) == name
  {
    var text := Content(file);
    if name !in Scanned(text) {
      AddedIsScannedIff(text, name);
      assert |text + (name + [NEWLINE])| > |text|;
    }
  }

  /** For a name that the scanner leaves whole: exactly when it was there, or the file ends in a line break or is empty. */
  lemma AddNameIdempotentIff(file: Option<string>, name: string)
    requires IsName(name)
    ensures Added(Added(file, name), name) == Added(file, name)
       <==> name in Scanned(Content(file)) || EndsLine(Content(file))
  {
    AddIdempotentIff(file, name);
    LastPartEmptyIff(Content(file), NEWLINE);
    ReadsAsNameIff(LastLine(Content(file)), name);
  }

  predicate EndsLine(text: string) { text == "" || text[|text| - 1] == NEWLINE }

  lemma ReadsAsNameIff(line: string, name: string)
    requires IsName(name)
    ensures DropReturn(line + name) == name <==> line == ""
  {
    var merged := line + name;
    assert merged[|merged| - 1] == name[|name| - 1];
    if line == "" { assert merged == name; } else { assert |merged| > |name|; }
  }

  /** On the files that add and remove themselves produce: exactly when the name does not end in a carriage return. */
  lemma AddToListIdempotentIff(file: Option<string>, names: seq<string>, name: string)
    requires Represents(file, names) && name != "" && NEWLINE !in name
    ensures Added(Added(file, name), name) == Added(file, name) <==> !EndsInReturn(name)
  {
    assert Content(file) == Terminated(names);
    SplitNames(names);
    AddIdempotentIff(file, name);
    assert LastLine(Content(file)) + name == name;
  }

  /** An unterminated last line is lost: the name that is added is merged with it. */
  lemma UnterminatedLineIsLost(file: Option<string>, name: string)
    requires IsName(name) && name !in Scanned(Content(file)) && LastLine(Content(file)) != ""
    ensures var parts := Split(Content(file), NEWLINE);
            && LastLine(Content(file)) in Listed(file)
            && Split(Added(file, name).value, NEWLINE) == parts[..|parts| - 1] + [LastLine(Content(file)) + name] + [""]
  {
    AddedLines(Content(file), name);
    if file.Some? {
      var parts := Split(file.value, NEWLINE);
      WithoutMembers(parts, "");
      assert parts[|parts| - 1] in parts;
      assert LastLine(file.value) in Members(Without(parts, ""));
    }
  }

  // ---------- Any file ----------

  /** The line, without one carriage return at its end, is the name. */
  predicate ScannedAs(line: string, name: string) {
    line == name + ['\r'] || (line == name && !EndsInReturn(name))
  }

  lemma ScannedAsIff(line: string, name: string)
    ensures DropReturn(line) == name <==> ScannedAs(line, name)
  {
    if line != "" && line[|line| - 1] == '\r' { assert line == line[..|line| - 1] + ['\r']; }
    if line == name + ['\r'] { assert line[..|line| - 1] == name; }
  }

  /** Part i is a line that the scanner reads as the name: it is terminated, or the last one and not empty. */
  ghost predicate Shows(parts: seq<string>, i: nat, name: string) {
    i < |parts| && (i < |parts| - 1 || parts[i] != "") && ScannedAs(parts[i], name)
  }

  lemma ScannedAt(text: string, name: string, i: nat)
    requires i < |Scanned(text)|
    ensures Scanned(text)[i] == name <==> Shows(Split(text, NEWLINE), i, name)
  {
    ScannedAsIff(Split(text, NEWLINE)[i], name);
  }

  lemma ShownIsScanned(text: string, name: string, i: nat)
    requires Shows(Split(text, NEWLINE), i, name)
    ensures name in Scanned(text)
  {
    assert i < |Scanned(text)|;
    ScannedAt(text, name, i);
  }

  /** What the scanner reports of any text: each terminated line, and a last one that is not empty. */
  lemma {:induction false} ScannedIff(text: string, name: string)
    ensures name in Scanned(text) <==> exists i: nat :: Shows(Split(text, NEWLINE), i, name)
  {
    if name in Scanned(text) {
      var i: nat :| i < |Scanned(text)| && Scanned(text)[i] == name;
      ScannedAt(text, name, i);
    }
    forall i: nat | Shows(Split(text, NEWLINE), i, name) ensures name in Scanned(text) { ShownIsScanned(text, name, i); }
  }

  /** Adding to any file: nothing when the name is scanned, one terminated line at the end otherwise. */
  lemma AddedToAny(file: Option<string>, name: string)
    ensures Added(file, name) == Some(Content(file) + if name in Scanned(Content(file)) then "" else name + [NEWLINE])
  {
    assert Content(file) + "" == Content(file);
  }

  /** Removing from any file: the first line that is the name is cut out, and no other. */
  lemma {:induction false} RemovedFromAny(text: string, name: string)
    ensures var parts := Split(text, NEWLINE);
            if name !in parts then Removed(Some(text), name) == Some(text)
            else exists i | 0 <= i < |parts| ::
                   parts[i] == name && name !in parts[..i]
                   && Removed(Some(text), name) == Some(Join(parts[..i] + parts[i + 1..], NEWLINE))
    ensures Removed(None, name) == None
  {
    var parts := Split(text, NEWLINE);
    if name in parts {
      var i := FirstIndex(parts, name);
      RemoveLineAt(parts, name, i);
    } else {
      RemoveLineAbsent(parts, name);
      JoinSplit(text, NEWLINE);
    }
  }

  lemma {:induction false} FirstIndex(lines: seq<string>, name: string) returns (i: nat)
    requires name in lines
    ensures i < |lines| && lines[i] == name && name !in lines[..i]
  {
    if lines[0] == name { return 0; }
    assert lines == [lines[0]] + lines[1..];
    var k := FirstIndex(lines[1..], name);
    i := k + 1;
    assert lines[..i] == [lines[0]] + lines[1..][..k];
  }
}
