/** Editing nsswitch.conf for OS Login, and rolling OS Login back on the four files it configures. */
module OsLogin {
  import opened Sequences
  import opened Text
  import TC = TextConfig

  const ADDED: string := "cache_oslogin oslogin"

  const MARK: string := "oslogin"

  /** In parts, because the verifier unrolls a long literal character by character. */
  const DELIMITER: TC.Delimiter := TC.Delimiter(
    "#### Google OS Login control." + " Do not edit this section." + " ####",
    "#### End Google OS Login" + " control section." + " ####")

  const OPTIONS: TC.Settings := TC.Settings(Some(DELIMITER), [DELIMITER], " ", [])

  predicate IsSwitchLine(line: string) { HasPrefix(line, "passwd:") || HasPrefix(line, "group:") }

  function EditLine(line: string, cleanup: bool): string {
    if !IsSwitchLine(line) then line
    else if cleanup then TrimSpace(RemoveFirst(line, ADDED))
    else if !Contains(line, MARK) then line + " " + ADDED
    else line
  }

  function EditLines(lines: seq<string>, cleanup: bool): (r: seq<string>)
    ensures |r| == |lines| && forall i | 0 <= i < |r| :: r[i] == EditLine(lines[i], cleanup)
  {
    seq(|lines|, i requires 0 <= i < |lines| => EditLine(lines[i], cleanup))
  }

  function EditText(text: string, cleanup: bool): string {
    Join(EditLines(Split(text, NEWLINE), cleanup), NEWLINE)
  }

  predicate HasStart(file: Option<string>) {
    file.Some? && exists line | line in Split(file.value, NEWLINE) :: TrimSpace(line) == DELIMITER.start
  }

  predicate MentionsActively(line: string) {
    var l := Before(line, '#');
    IsSwitchLine(l) && Contains(l, MARK)
  }

  /** The configuration files; None when a file does not exist. */
  datatype Disk = Disk(nsswitch: Option<string>, sshd: Option<string>, pam: Option<string>, group: Option<string>)

  predicate IsConfigured(d: Disk) {
    || (d.nsswitch.Some? && exists line | line in Split(d.nsswitch.value, NEWLINE) :: MentionsActively(line))
    || HasStart(d.sshd) || HasStart(d.pam) || HasStart(d.group)
  }

  function CleanedFile(file: Option<string>): Option<string> {
    if file.None? then None else Some(TC.CleanText(OPTIONS, file.value))
  }

  /** Rolling back stops at the first file that cannot be read: without nsswitch.conf only sshd is cleaned. */
  function RolledBack(d: Disk): Disk {
    if d.nsswitch.None? then d.(sshd := CleanedFile(d.sshd))
    else Disk(Some(EditText(d.nsswitch.value, true)), CleanedFile(d.sshd), CleanedFile(d.pam), CleanedFile(d.group))
  }

  const PAM_OSLOGIN: string := "[success=done" + " perm_denied=die" + " default=ignore]"

  /** The block that goes on top of the PAM file, and the one at its bottom. */
  function PamTop(twoFactor: bool): TC.Block {
    TC.Block(TC.Top, (if twoFactor then [TC.Entry("auth", PAM_OSLOGIN + " pam_oslogin_login.so")] else [])
                     + [TC.Entry("auth", "[default=ignore]" + " pam_group.so")])
  }

  const PAM_BOTTOM: TC.Block :=
    TC.Block(TC.Bottom, [TC.Entry("session", "[success=ok default=ignore]" + " pam_mkhomedir.so")])

  const GROUP_BOTTOM: TC.Block := TC.Block(TC.Bottom, [TC.Entry("sshd;*;*;Al0000-2400;video", "")])

  class Module {
    var nsswitch: Option<string>
    var sshd: TC.Handle
    var pam: TC.Handle
    var group: TC.Handle

    ghost predicate Valid()
      reads this
    {
      && sshd != pam && sshd != group && pam != group
      && sshd.settings == OPTIONS && pam.settings == OPTIONS && group.settings == OPTIONS
    }

    function OnDisk(): Disk
      reads this, sshd, pam, group
    {
      Disk(nsswitch, sshd.file, pam.file, group.file)
    }

    constructor (d: Disk)
      ensures Valid() && OnDisk() == d
      ensures fresh(sshd) && fresh(pam) && fresh(group)
    {
      nsswitch := d.nsswitch;
      sshd := new TC.Handle(OPTIONS.delimiter, [], " ", [], d.sshd);
      pam := new TC.Handle(OPTIONS.delimiter, [], " ", [], d.pam);
      group := new TC.Handle(OPTIONS.delimiter, [], " ", [], d.group);
    }

    method SetupNSSwitch(cleanup: bool) returns (ok: bool)
      modifies this`nsswitch
      ensures ok == old(nsswitch).Some?
      ensures nsswitch == if ok then Some(EditText(old(nsswitch).value, cleanup)) else None
    {
      if nsswitch.None? { return false; }
      var all := Split(nsswitch.value, NEWLINE);
      var lines: seq<string> := [];
      for i := 0 to |all|
        invariant lines == EditLines(all, cleanup)[..i]
      {
        var line := all[i];
        if HasPrefix(line, "passwd:") || HasPrefix(line, "group:") {
          if cleanup {
            line := TrimSpace(RemoveFirst(line, ADDED));
          } else if !Contains(line, MARK) {
            line := line + " " + ADDED;
          }
        }
        lines := lines + [line];
      }
      assert lines == EditLines(all, cleanup);
      nsswitch := Some(Join(lines, NEWLINE));
      return true;
    }

    method SetupPAM(twoFactor: bool)
      requires Valid()
      modifies pam`file
      ensures pam.file == Some(TC.Applied(OPTIONS, [PamTop(twoFactor), PAM_BOTTOM], old(pam.file)))
    {
      var pamConfig := new TC.Handle(OPTIONS.delimiter, [], " ", [], pam.file);
      pamConfig.AddBlock(PamTop(twoFactor));
      pamConfig.AddBlock(PAM_BOTTOM);
      assert pamConfig.settings == OPTIONS by { assert [DELIMITER] + [] == [DELIMITER]; }
      assert pamConfig.blocks == [PamTop(twoFactor), PAM_BOTTOM];
      pamConfig.Apply();
      pam.file := pamConfig.file;
    }

    method SetupGroup()
      requires Valid()
      modifies group`file
      ensures group.file == Some(TC.Applied(OPTIONS, [GROUP_BOTTOM], old(group.file)))
    {
      var groupConf := new TC.Handle(OPTIONS.delimiter, [], " ", [], group.file);
      groupConf.AddBlock(GROUP_BOTTOM);
      assert groupConf.settings == OPTIONS by { assert [DELIMITER] + [] == [DELIMITER]; }
      assert groupConf.blocks == [GROUP_BOTTOM];
      groupConf.Apply();
      group.file := groupConf.file;
    }

    method DisableOSLogin() returns (ok: bool)
      requires Valid()
      modifies this`nsswitch, sshd`file, pam`file, group`file
      ensures OnDisk() == RolledBack(old(OnDisk()))
      ensures ok == old(nsswitch).Some?
    {
      sshd.Cleanup();
      var edited := SetupNSSwitch(true);
      if !edited { return false; }
      pam.Cleanup();
      group.Cleanup();
      return true;
    }

    method IsConfiguredOnDisk() returns (configured: bool)
      ensures configured <==> IsConfigured(OnDisk())
    {
      if nsswitch.Some? {
        var lines := Split(nsswitch.value, NEWLINE);
        for i := 0 to |lines|
          invariant forall k | 0 <= k < i :: !MentionsActively(lines[k])
        {
          if MentionsActively(lines[i]) {
            assert lines[i] in lines;
            return true;
          }
        }
      }
      var files := [sshd.file, pam.file, group.file];
      for f := 0 to |files|
        invariant forall k | 0 <= k < f :: !HasStart(files[k])
      {
        if files[f].Some? {
          var lines := Split(files[f].value, NEWLINE);
          for i := 0 to |lines|
            invariant forall k | 0 <= k < i :: TrimSpace(lines[k]) != DELIMITER.start
          {
            if TrimSpace(lines[i]) == DELIMITER.start {
              assert lines[i] in lines;
              assert HasStart(files[f]);
              return true;
            }
          }
        }
      }
      assert !HasStart(files[0]) && !HasStart(files[1]) && !HasStart(files[2]);
      return false;
    }
  }

  /** A line that configures a name service with oslogin, outside its comment. */
  predicate Mentions(line: string) {
    var l := Before(line, '#');
    (HasPrefix(l, "passwd:") || HasPrefix(l, "group:")) && Contains(l, "oslogin")
  }

  predicate HasLine(file: Option<string>, start: string) {
    file.Some? && exists line | line in Split(file.value, NEWLINE) :: TrimSpace(line) == start
  }

  /** What the check looks for: an uncommented mention on a passwd or group line, or a start delimiter elsewhere. */
  lemma ConfiguredMeans(d: Disk)
    ensures IsConfigured(d) <==>
            || (d.nsswitch.Some? && exists line | line in Split(d.nsswitch.value, NEWLINE) :: Mentions(line))
            || HasLine(d.sshd, DELIMITER.start) || HasLine(d.pam, DELIMITER.start) || HasLine(d.group, DELIMITER.start)
  {
    forall line ensures MentionsActively(line) <==> Mentions(line) {
    }
    if d.nsswitch.Some? {
      if line :| line in Split(d.nsswitch.value, NEWLINE) && Mentions(line) { assert MentionsActively(line); }
      if line :| line in Split(d.nsswitch.value, NEWLINE) && MentionsActively(line) { assert Mentions(line); }
    }
  }

  // ---------- Setting up twice ----------

  lemma SwitchLineShape(line: string)
    requires IsSwitchLine(line)
    ensures line != "" && !IsSpace(line[0]) && |line| >= 6
  {
  }

  lemma EditedLineIsOneLine(line: string, cleanup: bool)
    requires NEWLINE !in line
    ensures NEWLINE !in EditLine(line, cleanup)
  {
    if IsSwitchLine(line) && cleanup {
      var x := RemoveFirst(line, ADDED);
      TrimKeepsLine(x);
    }
  }

  lemma {:induction false} TrimLeftKeepsLine(s: string)
    ensures forall c | c in TrimLeft(s) :: c in s
  {
    if s != "" && IsSpace(s[0]) { TrimLeftKeepsLine(s[1..]); }
  }

  lemma TrimKeepsLine(s: string)
    ensures forall c | c in TrimSpace(s) :: c in s
  {
    TrimLeftKeepsLine(s);
    TrimRightCuts(TrimLeft(s));
  }

  /** The edited text splits into the edited lines. */
  lemma EditedLines(text: string, cleanup: bool)
    ensures Split(EditText(text, cleanup), NEWLINE) == EditLines(Split(text, NEWLINE), cleanup)
  {
    var lines := Split(text, NEWLINE);
    var edited := EditLines(lines, cleanup);
    forall p | p in edited ensures NEWLINE !in p {
      var i :| 0 <= i < |edited| && edited[i] == p;
      assert lines[i] in lines;
      EditedLineIsOneLine(lines[i], cleanup);
    }
    SplitJoin(edited, NEWLINE);
  }

  lemma AddedShape()
    ensures |ADDED| == 21 && |MARK| == 7
    ensures ADDED[6..13] == MARK && ADDED[14..21] == MARK
    ensures ADDED[0] == 'c' && forall k | 0 <= k < 13 :: ADDED[k] != ' '
    ensures forall k | 0 <= k < 7 :: !IsSpace(MARK[k])
  {
  }

  lemma ContainsAdded(line: string)
    ensures Contains(line + " " + ADDED, MARK)
  {
    AddedShape();
    var full := line + " " + ADDED;
    assert full[|line| + 7..|line| + 14] == ADDED[6..13];
    assert OccursAt(full, MARK, |line| + 7);
  }

  /**
    * What a set-up does to each line: a passwd or group line that mentions oslogin stays, any other one
    * gains a blank and the two names at its end, and all other lines stay.
    */
  lemma {:induction false} SetupAchieves(text: string)
    ensures var lines, after := Split(text, NEWLINE), Split(EditText(text, false), NEWLINE);
            && |after| == |lines|
            && forall i | 0 <= i < |lines| ::
                 if HasPrefix(lines[i], "passwd:") || HasPrefix(lines[i], "group:")
                 then Contains(after[i], "oslogin")
                   && after[i] == lines[i] + if Contains(lines[i], "oslogin") then "" else " " + "cache_oslogin oslogin"
                 else after[i] == lines[i]
  {
    EditedLines(text, false);
    var lines := Split(text, NEWLINE);
    forall i | 0 <= i < |lines| && IsSwitchLine(lines[i]) ensures Contains(EditLine(lines[i], false), MARK) {
      ContainsAdded(lines[i]);
    }
    assert forall i | 0 <= i < |lines| :: lines[i] + "" == lines[i];
  }

  /**
    * What a rollback does to each line: a passwd or group line loses the first occurrence of the added text,
    * if it has one, and the blanks at its ends, and all other lines stay.
    */
  lemma {:induction false} RollbackAchieves(text: string)
    ensures var lines, after := Split(text, NEWLINE), Split(EditText(text, true), NEWLINE);
            && |after| == |lines|
            && forall i | 0 <= i < |lines| ::
                 if HasPrefix(lines[i], "passwd:") || HasPrefix(lines[i], "group:")
                 then LosesFirst(lines[i], after[i], "cache_oslogin oslogin")
                 else after[i] == lines[i]
  {
    EditedLines(text, true);
    var lines := Split(text, NEWLINE);
    forall i | 0 <= i < |lines| && IsSwitchLine(lines[i]) ensures LosesFirst(lines[i], EditLine(lines[i], true), ADDED) {
      var at := Index(lines[i], ADDED);
      if at >= 0 { assert OccursAt(lines[i], ADDED, at); }
    }
  }

  /** after is line without the first occurrence of word, trimmed; or line trimmed, when word does not occur. */
  ghost predicate LosesFirst(line: string, after: string, word: string) {
    || (after == TrimSpace(line) && forall k: nat :: !OccursAt(line, word, k))
    || exists at: nat ::
         && OccursAt(line, word, at) && (forall k: nat | k < at :: !OccursAt(line, word, k))
         && after == TrimSpace(line[..at] + line[at + |word|..])
  }

  /** Setting up a file with a passwd or group line that holds no comment makes the check true. */
  lemma {:induction false} SetupIsConfigured(d: Disk, line: string)
    requires d.nsswitch.Some? && line in Split(d.nsswitch.value, NEWLINE) && '#' !in line
    requires HasPrefix(line, "passwd:") || HasPrefix(line, "group:")
    ensures IsConfigured(d.(nsswitch := Some(EditText(d.nsswitch.value, false))))
  {
    var text := d.nsswitch.value;
    SetupAchieves(text);
    var lines, after := Split(text, NEWLINE), Split(EditText(text, false), NEWLINE);
    var i :| 0 <= i < |lines| && lines[i] == line;
    AddedHasNoHash();
    NoHash(after[i]);
    assert after[i] in after;
    assert HasPrefix(after[i], line);
  }

  lemma AddedHasNoHash()
    ensures '#' !in " " && '#' !in "cache_oslogin oslogin"
  {
  }

  /** Setting up nsswitch.conf twice is setting it up once, whatever the file holds. */
  lemma SetupIdempotent(text: string)
    ensures EditText(EditText(text, false), false) == EditText(text, false)
  {
    EditedLines(text, false);
    var once := EditLines(Split(text, NEWLINE), false);
    forall i | 0 <= i < |once| ensures EditLine(once[i], false) == once[i] {
      ContainsAdded(Split(text, NEWLINE)[i]);
    }
    assert EditLines(once, false) == once;
  }

  // ---------- Setting up, then rolling back ----------

  lemma BlankFallsInside(line: string, word: string, i: nat)
    requires i <= |line| < i + |word| && OccursAt(line + " " + word, word, i)
    ensures word[|line| - i] == ' '
  {
    var full := line + " " + word;
    OccursByChar(full, word, i);
    assert full[i + (|line| - i)] == ' ';
  }

  /**
    * A word appended after a blank cannot be found earlier, when its first blank-free stretch holds
    * a mark that the line itself lacks.
    */
  lemma FoundEarlierMeansMentioned(line: string, word: string, mark: string, at: nat, i: nat)
    requires i <= |line| && OccursAt(line + " " + word, word, i)
    requires at + |mark| <= |word| && OccursAt(word, mark, at)
    requires forall k | 0 <= k < at + |mark| :: word[k] != ' '
    ensures Contains(line, mark)
  {
    var full := line + " " + word;
    OccursByChar(full, word, i);
    if i + at + |mark| <= |line| {
      OccursByChar(word, mark, at);
      forall k | 0 <= k < |mark| ensures line[i + at + k] == mark[k] {
        assert full[i + (at + k)] == word[at + k];
      }
      OccursByChar(line, mark, i + at);
    } else {
      BlankFallsInside(line, word, i);
      assert false;
    }
  }

  lemma AddedFoundWhereAdded(line: string)
    requires !Contains(line, MARK)
    ensures RemoveFirst(line + " " + ADDED, ADDED) == line + " "
  {
    var full := line + " " + ADDED;
    var i := Index(full, ADDED);
    assert full[|line| + 1..] == ADDED;
    assert OccursAt(full, ADDED, |line| + 1);
    AddedShape();
    if i <= |line| { FoundEarlierMeansMentioned(line, ADDED, MARK, 6, i); }
    RemoveAt(line + " ", ADDED);
  }

  lemma RemoveAt(front: string, word: string)
    requires Index(front + word, word) == |front|
    ensures RemoveFirst(front + word, word) == front
  {
    assert (front + word)[..|front|] == front && (front + word)[|front| + |word|..] == "";
  }

  lemma RollbackOfSetupLine(line: string)
    requires IsSwitchLine(line) ==> !Contains(line, MARK)
    ensures EditLine(EditLine(line, false), true) == if IsSwitchLine(line) then TrimRight(line) else line
  {
    if IsSwitchLine(line) {
      var full := line + " " + ADDED;
      AddedFoundWhereAdded(line);
      assert IsSwitchLine(full);
      SwitchLineShape(line);
      TrimRightAppendBlank(line, ' ');
    }
  }

  ghost predicate NotMentioned(text: string) {
    forall l | l in Split(text, NEWLINE) && IsSwitchLine(l) :: !Contains(l, MARK)
  }

  /** Rolling back a fresh set-up restores every line up to trailing blanks of the edited ones. */
  lemma {:induction false} RollbackRestoresLines(text: string)
    requires NotMentioned(text)
    ensures var lines, back := Split(text, NEWLINE), Split(EditText(EditText(text, false), true), NEWLINE);
            && |back| == |lines|
            && forall i | 0 <= i < |lines| ::
                 back[i] == if IsSwitchLine(lines[i]) then TrimRight(lines[i]) else lines[i]
  {
    EditedLines(text, false);
    EditedLines(EditText(text, false), true);
    var lines := Split(text, NEWLINE);
    forall i | 0 <= i < |lines|
      ensures EditLine(EditLine(lines[i], false), true)
           == if IsSwitchLine(lines[i]) then TrimRight(lines[i]) else lines[i]
    {
      assert lines[i] in lines;
      RollbackOfSetupLine(lines[i]);
    }
  }

  // ---------- The check after a rollback ----------

  /** Comments do not hide the database name at the start of a line. */
  lemma SwitchLineBeforeComment(line: string)
    ensures IsSwitchLine(Before(line, '#')) <==> IsSwitchLine(line)
  {
    var b := Before(line, '#');
    assert b <= line;
    if IsSwitchLine(line) && b != line {
      assert line[|b|] == '#';
      assert |b| >= if HasPrefix(line, "passwd:") then 7 else 6;
    }
  }

  /** Cutting trailing blanks off a line hides no mention of oslogin. */
  lemma TrimHidesNoMention(s: string, mark: string)
    requires mark != "" && forall k | 0 <= k < |mark| :: !IsSpace(mark[k])
    ensures Contains(Before(TrimRight(s), '#'), mark) <==> Contains(Before(s, '#'), mark)
  {
    var t := TrimRight(s);
    TrimRightCuts(s);
    var b := Before(s, '#');
    if |b| <= |t| {
      assert t[..|b|] == b;
      if |b| < |t| { assert t[|b|] == s[|b|]; }
      BeforeIsFirst(t, '#', |b|);
    } else {
      assert t == b[..|t|] == t[..|t|];
      BeforeIsFirst(t, '#', |t|);
      if Contains(b, mark) { MarkInTrimmed(b, |t|, mark); }
      if Contains(t, mark) { ContainsInPart(b, 0, |t|, mark); }
    }
  }

  lemma MarkInTrimmed(b: string, n: nat, mark: string)
    requires mark != "" && forall k | 0 <= k < |mark| :: !IsSpace(mark[k])
    requires n <= |b| && (forall i | n <= i < |b| :: IsSpace(b[i])) && Contains(b, mark)
    ensures Contains(b[..n], mark)
  {
    var i, m := Index(b, mark), |mark|;
    assert OccursAt(b, mark, i);
    assert b[i + m - 1] == b[i..i + m][m - 1] == mark[m - 1];
    assert b[..n][i..i + m] == b[i..i + m];
    assert OccursAt(b[..n], mark, i);
  }

  lemma RemoveKeepsName(line: string)
    requires IsSwitchLine(line)
    ensures IsSwitchLine(RemoveFirst(line, ADDED))
  {
    var i, n := Index(line, ADDED), if HasPrefix(line, "passwd:") then 7 else 6;
    if i >= 0 {
      AddedShape();
      assert line[i] == line[i..i + |ADDED|][0] == 'c';
      assert i >= n;
      assert RemoveFirst(line, ADDED)[..n] == line[..n];
    }
  }

  lemma TrimKeepsName(x: string)
    requires IsSwitchLine(x)
    ensures TrimSpace(x) == TrimRight(x) && IsSwitchLine(TrimRight(x))
  {
    SwitchLineShape(x);
    TrimRightCuts(x);
    // The colon that ends the name is no blank, so the cut does not reach it.
    var n := if HasPrefix(x, "passwd:") then 7 else 6;
    assert x[n - 1] == ':';
    assert |TrimRight(x)| >= n;
    assert TrimRight(x)[..n] == x[..n];
  }

  /** Removing the added text leaves the database name in front, so only trailing blanks are trimmed. */
  lemma RollbackKeepsName(line: string)
    requires IsSwitchLine(line)
    ensures EditLine(line, true) == TrimRight(RemoveFirst(line, ADDED))
    ensures IsSwitchLine(EditLine(line, true))
  {
    RemoveKeepsName(line);
    TrimKeepsName(RemoveFirst(line, ADDED));
  }

  lemma AddedMentions(line: string)
    ensures Contains(line, ADDED) ==> Contains(line, MARK)
  {
    var i := Index(line, ADDED);
    if i >= 0 {
      AddedShape();
      assert line[i + 6..i + 13] == line[i..i + 21][6..13];
      assert OccursAt(line, MARK, i + 6);
    }
  }

  lemma LineComesBackIff(line: string)
    requires IsSwitchLine(line)
    ensures EditLine(EditLine(line, false), true) == line <==> !Contains(line, ADDED) && TrimRight(line) == line
  {
    AddedMentions(line);
    if Contains(line, MARK) {
      RollbackKeepsName(line);
      TrimRightCuts(RemoveFirst(line, ADDED));
    } else {
      RollbackOfSetupLine(line);
    }
  }

  ghost predicate Restorable(text: string) {
    forall l | l in Split(text, NEWLINE) && IsSwitchLine(l) :: !Contains(l, ADDED) && TrimRight(l) == l
  }

  /** Any file comes back exactly when no passwd or group line holds the added text or ends in blanks. */
  lemma {:induction false} RollbackRestoresFileIff(text: string)
    ensures EditText(EditText(text, false), true) == text <==> Restorable(text)
  {
    var lines, back := Split(text, NEWLINE), Split(EditText(EditText(text, false), true), NEWLINE);
    EditedLines(text, false);
    EditedLines(EditText(text, false), true);
    JoinSplit(text, NEWLINE);
    JoinSplit(EditText(EditText(text, false), true), NEWLINE);
    forall i | 0 <= i < |lines|
      ensures back[i] == lines[i] <==> IsSwitchLine(lines[i]) ==> !Contains(lines[i], ADDED) && TrimRight(lines[i]) == lines[i]
    {
      if IsSwitchLine(lines[i]) { LineComesBackIff(lines[i]); }
    }
    if Restorable(text) {
      forall i | 0 <= i < |lines| ensures back[i] == lines[i] { assert lines[i] in lines; }
      assert back == lines;
    }
  }

  /** What is left of a line that was not written by the set-up alone. */
  predicate StillMentions(line: string) {
    IsSwitchLine(line) && Contains(Before(RemoveFirst(line, ADDED), '#'), MARK)
  }

  lemma RollbackLineCheck(line: string)
    ensures MentionsActively(EditLine(line, true)) <==> StillMentions(line)
  {
    SwitchLineBeforeComment(EditLine(line, true));
    if IsSwitchLine(line) {
      RollbackKeepsName(line);
      AddedShape();
      TrimHidesNoMention(RemoveFirst(line, ADDED), MARK);
    }
  }

  lemma TrimsToItself(s: string)
    requires s != "" && !IsSpace(s[0]) && !IsSpace(s[|s| - 1])
    ensures TrimSpace(s) == s
  {
  }

  lemma OptionsTrimmed()
    ensures TrimSpace(DELIMITER.start) == DELIMITER.start != ""
    ensures TrimSpace(DELIMITER.end) == DELIMITER.end
  {
    TrimsToItself(DELIMITER.start);
    TrimsToItself(DELIMITER.end);
  }

  /** Entries such as those OS Login writes: one line, beginning with neither a blank nor a hash sign. */
  ghost predicate PlainEntry(e: TC.Entry) {
    e.key != "" && !IsSpace(e.key[0]) && e.key[0] != '#' && NEWLINE !in e.key && NEWLINE !in e.value
  }

  lemma PlainEntryIsNoDelimiter(e: TC.Entry)
    requires PlainEntry(e)
    ensures Split(TC.Format(e, " "), NEWLINE) == [TC.Format(e, " ")]
    ensures !TC.MatchesEnd(OPTIONS, TC.Format(e, " "))
  {
    var raw := e.key + " " + e.value;
    assert raw[0] == e.key[0];
    assert TrimLeft(raw) == raw;
    TrimRightCuts(raw);
    var line := TC.Format(e, " ");
    assert line != "" && line[0] == raw[0];
    SplitNoSeparator(line, NEWLINE);
    assert TrimLeft(line) == line;
    TrimRightCuts(line);
    assert |TrimSpace(line)| > 0 ==> TrimSpace(line)[0] == e.key[0];
    assert DELIMITER.end[0] == '#';
  }

  lemma StartIsOneLine()
    ensures NEWLINE !in DELIMITER.start
  {
    assert NEWLINE !in "#### Google OS Login control.";
    assert NEWLINE !in " Do not edit this section.";
  }

  lemma EndIsOneLine()
    ensures NEWLINE !in DELIMITER.end
  {
    assert NEWLINE !in "#### End Google OS Login";
  }

  lemma OptionsDelimiter()
    ensures OPTIONS.delimiter == Some(DELIMITER) && DELIMITER in OPTIONS.all
    ensures !TC.MatchesStart(OPTIONS, DELIMITER.end)
    ensures NEWLINE !in DELIMITER.start && NEWLINE !in DELIMITER.end
  {
    OptionsTrimmed();
    StartIsOneLine();
    EndIsOneLine();
    assert OPTIONS.all[0] == DELIMITER;
    assert |DELIMITER.start| == 60 && |DELIMITER.end| == 46;
  }

  /** Blocks of plain entries meet what the block editor needs. */
  lemma {:induction false} PlainBlocksAreWellFormed(blocks: seq<TC.Block>)
    requires forall b | b in blocks :: forall e | e in b.entries :: PlainEntry(e)
    ensures TC.WellFormed(OPTIONS, blocks)
  {
    OptionsTrimmed();
    OptionsDelimiter();
    forall b | b in blocks ensures TC.Contained(OPTIONS, b) { PlainBlockIsContained(b); }
  }

  lemma PlainBlockIsContained(b: TC.Block)
    requires TC.Delimited(OPTIONS) && forall e | e in b.entries :: PlainEntry(e)
    ensures TC.Contained(OPTIONS, b)
  {
    forall l | l in TC.Inner(OPTIONS, b) ensures !TC.MatchesEnd(OPTIONS, l) {
      TC.FormattedLines(b.entries, " ", l);
      var e :| e in b.entries && l in Split(TC.Format(e, " "), NEWLINE);
      PlainEntryIsNoDelimiter(e);
    }
    TC.NoEndIsContained(OPTIONS, b);
  }

  /** The blocks that set-up writes are plain. */
  lemma WrittenBlocksAreWellFormed(twoFactor: bool)
    ensures TC.WellFormed(OPTIONS, [PamTop(twoFactor), PAM_BOTTOM]) && TC.WellFormed(OPTIONS, [GROUP_BOTTOM])
  {
    PlainWords();
    PlainGroupKey();
    PlainOsLoginModule();
    PlainBlocksAreWellFormed([PamTop(twoFactor), PAM_BOTTOM]);
    PlainBlocksAreWellFormed([GROUP_BOTTOM]);
  }

  lemma PlainWords()
    ensures NEWLINE !in "[default=ignore]" && NEWLINE !in " pam_group.so"
    ensures NEWLINE !in "[success=ok default=ignore]" && NEWLINE !in " pam_mkhomedir.so"
    ensures NEWLINE !in "auth" && NEWLINE !in "session"
    ensures "auth"[0] == 'a' && "session"[0] == 's'
  {
  }

  lemma PlainGroupKey()
    ensures NEWLINE !in "sshd;*;*;Al0000-2400;video" && "sshd;*;*;Al0000-2400;video"[0] == 's'
  {
  }

  lemma PlainOsLoginModule()
    ensures NEWLINE !in PAM_OSLOGIN && NEWLINE !in " pam_oslogin_login.so"
  {
    assert NEWLINE !in "[success=done" && NEWLINE !in " perm_denied=die" && NEWLINE !in " default=ignore]";
  }

  lemma PamEntriesArePlain()
    ensures TC.PlainEntry(TC.Entry("auth", PAM_OSLOGIN + " pam_oslogin_login.so"), " ")
    ensures TC.PlainEntry(TC.Entry("auth", "[default=ignore]" + " pam_group.so"), " ")
    ensures TC.PlainEntry(TC.Entry("session", "[success=ok default=ignore]" + " pam_mkhomedir.so"), " ")
  {
    PlainWords();
    PlainOsLoginModule();
  }

  lemma GroupEntryIsPlain()
    ensures TC.PlainEntry(TC.Entry("sshd;*;*;Al0000-2400;video", ""), " ")
  {
    PlainGroupKey();
  }

  lemma DelimiterWorks()
    ensures TC.Delimited(OPTIONS)
  {
    OptionsTrimmed();
    OptionsDelimiter();
  }

  const LOGIN: TC.Entry := TC.Entry("auth", PAM_OSLOGIN + " pam_oslogin_login.so")

  const GROUPS: TC.Entry := TC.Entry("auth", "[default=ignore]" + " pam_group.so")

  const SESSION: TC.Entry := TC.Entry("session", "[success=ok default=ignore]" + " pam_mkhomedir.so")

  const VIDEO: string := "sshd;*;*;Al0000-2400;video"

  lemma PamBlocks(twoFactor: bool)
    ensures var start, end := DELIMITER.start, DELIMITER.end;
            var login, groups := TC.EntryLine(LOGIN, " "), TC.EntryLine(GROUPS, " ");
            && TC.BlockText(OPTIONS, PamTop(twoFactor)) == (if twoFactor then [start, login, groups, end] else [start, groups, end])
            && TC.BlockText(OPTIONS, PAM_BOTTOM) == [start, TC.EntryLine(SESSION, " "), end]
  {
    TC.ShortBlocks(OPTIONS, TC.Top, LOGIN, GROUPS);
    TC.ShortBlocks(OPTIONS, TC.Top, GROUPS, GROUPS);
    TC.ShortBlocks(OPTIONS, TC.Bottom, SESSION, GROUPS);
    assert PamTop(twoFactor).entries == if twoFactor then [LOGIN, GROUPS] else [GROUPS];
  }

  /** The PAM file after a set-up, line by line. */
  lemma PamLines(twoFactor: bool, file: Option<string>)
    ensures var start, end := DELIMITER.start, DELIMITER.end;
            var login, groups := TC.EntryLine(LOGIN, " "), TC.EntryLine(GROUPS, " ");
            Split(TC.Applied(OPTIONS, [PamTop(twoFactor), PAM_BOTTOM], file), NEWLINE)
              == (if twoFactor then [start, login, groups, end] else [start, groups, end])
                 + TC.KeptLines(OPTIONS, file) + [start, TC.EntryLine(SESSION, " "), end]
  {
    PamEntriesArePlain();
    DelimiterWorks();
    TC.TopAndBottom(OPTIONS, PamTop(twoFactor), PAM_BOTTOM, file);
    PamBlocks(twoFactor);
  }

  /** The group file after a set-up, line by line. */
  lemma GroupLines(file: Option<string>)
    ensures Split(TC.Applied(OPTIONS, [GROUP_BOTTOM], file), NEWLINE)
         == TC.KeptLines(OPTIONS, file) + [DELIMITER.start, VIDEO, DELIMITER.end]
  {
    GroupEntryIsPlain();
    DelimiterWorks();
    TC.OnlyBottom(OPTIONS, GROUP_BOTTOM, file);
    TC.ShortBlocks(OPTIONS, TC.Bottom, GROUP_BOTTOM.entries[0], GROUPS);
  }

  lemma CleanedFileHasNoStart(file: Option<string>)
    ensures !HasStart(CleanedFile(file))
  {
    if file.Some? && HasStart(CleanedFile(file)) {
      var text := TC.CleanText(OPTIONS, file.value);
      var line :| line in Split(text, NEWLINE) && TrimSpace(line) == DELIMITER.start;
      assert OPTIONS.all[0] == DELIMITER;
      assert TC.MatchesStart(OPTIONS, line);
      TC.CleanupLeavesNoDelimiter(OPTIONS, file.value, line);
      OptionsTrimmed();
      assert false;
    }
  }

  /**
    * After a rollback the disk still looks configured in exactly two situations: a passwd or group
    * line mentioned oslogin beyond the added text, or nsswitch.conf was missing and the rollback
    * stopped before it reached the PAM and group files.
    */
  lemma RollbackClearsCheckIff(d: Disk)
    ensures IsConfigured(RolledBack(d)) <==>
            if d.nsswitch.Some? then exists line | line in Split(d.nsswitch.value, NEWLINE) :: StillMentions(line)
            else HasStart(d.pam) || HasStart(d.group)
  {
    CleanedFileHasNoStart(d.sshd);
    CleanedFileHasNoStart(d.pam);
    CleanedFileHasNoStart(d.group);
    if d.nsswitch.Some? {
      EditedLines(d.nsswitch.value, true);
      var lines := Split(d.nsswitch.value, NEWLINE);
      var edited := EditLines(lines, true);
      forall i | 0 <= i < |lines| ensures MentionsActively(edited[i]) <==> StillMentions(lines[i]) {
        RollbackLineCheck(lines[i]);
      }
      if i: nat :| i < |lines| && StillMentions(lines[i]) { assert edited[i] in edited; }
      if i: nat :| i < |edited| && MentionsActively(edited[i]) { assert lines[i] in lines; }
    }
  }

  /** Setting OS Login up on all four files. */
  ghost function Configured(d: Disk, sshd: seq<TC.Block>, pam: seq<TC.Block>, group: seq<TC.Block>): Disk
    requires d.nsswitch.Some?
  {
    Disk(Some(EditText(d.nsswitch.value, false)), Some(TC.Applied(OPTIONS, sshd, d.sshd)),
         Some(TC.Applied(OPTIONS, pam, d.pam)), Some(TC.Applied(OPTIONS, group, d.group)))
  }

  /** Setting up changes nothing about whether a line will look configured after the rollback. */
  lemma SetupKeepsMention(line: string)
    ensures StillMentions(EditLine(line, false)) <==> StillMentions(line)
  {
    if IsSwitchLine(line) && !Contains(line, MARK) {
      SetupLineLeavesNothing(line);
      AddedMentions(line);
      var b := Before(line, '#');
      assert line[0..|b|] == b;
      if Contains(b, MARK) { ContainsInPart(line, 0, |b|, MARK); }
    }
  }

  /**
    * After setting up all four files and rolling back, the disk looks configured exactly when a passwd or
    * group line mentioned oslogin beyond the added text before; each file is as a plain rollback leaves it.
    */
  lemma {:induction false} RollbackUndoesSetup(d: Disk, sshd: seq<TC.Block>, pam: seq<TC.Block>, group: seq<TC.Block>)
    requires d.nsswitch.Some?
    requires TC.WellFormed(OPTIONS, sshd) && TC.WellFormed(OPTIONS, pam) && TC.WellFormed(OPTIONS, group)
    ensures var back := RolledBack(Configured(d, sshd, pam, group));
            && (IsConfigured(back) <==> exists line | line in Split(d.nsswitch.value, NEWLINE) :: StillMentions(line))
            && (d.sshd.Some? ==> back.sshd == Some(TC.CleanText(OPTIONS, d.sshd.value)))
            && (d.pam.Some? ==> back.pam == Some(TC.CleanText(OPTIONS, d.pam.value)))
            && (d.group.Some? ==> back.group == Some(TC.CleanText(OPTIONS, d.group.value)))
  {
    var lines := Split(d.nsswitch.value, NEWLINE);
    EditedLines(d.nsswitch.value, false);
    var edited := EditLines(lines, false);
    RollbackClearsCheckIff(Configured(d, sshd, pam, group));
    forall i | 0 <= i < |lines| ensures StillMentions(edited[i]) <==> StillMentions(lines[i]) {
      SetupKeepsMention(lines[i]);
    }
    if i: nat :| i < |lines| && StillMentions(lines[i]) { assert edited[i] in edited; }
    if i: nat :| i < |edited| && StillMentions(edited[i]) { assert lines[i] in lines; }
    if d.sshd.Some? { TC.CleanupUndoesApplyIff(OPTIONS, sshd, d.sshd.value); }
    if d.pam.Some? { TC.CleanupUndoesApplyIff(OPTIONS, pam, d.pam.value); }
    if d.group.Some? { TC.CleanupUndoesApplyIff(OPTIONS, group, d.group.value); }
  }

  lemma MentionIgnoresTrailingBlank(line: string, mark: string)
    requires mark != "" && forall k | 0 <= k < |mark| :: !IsSpace(mark[k])
    requires !Contains(line, mark)
    ensures !Contains(Before(line + " ", '#'), mark)
  {
    TrimRightAppendBlank(line, ' ');
    TrimHidesNoMention(line, mark);
    TrimHidesNoMention(line + " ", mark);
    var b := Before(line, '#');
    assert line[0..|b|] == b;
    if Contains(b, mark) { ContainsInPart(line, 0, |b|, mark); }
  }

  lemma SetupLineLeavesNothing(line: string)
    requires IsSwitchLine(line) ==> !Contains(line, MARK)
    ensures !StillMentions(EditLine(line, false))
  {
    if IsSwitchLine(line) {
      AddedFoundWhereAdded(line);
      AddedShape();
      MentionIgnoresTrailingBlank(line, MARK);
    }
  }

  lemma NoHash(s: string)
    requires '#' !in s
    ensures Before(s, '#') == s
  {
    BeforeIsFirst(s, '#', |s|);
    assert s[..|s|] == s;
  }

  /** An entry that set-up did not write survives the rollback. */
  lemma ForeignEntrySurvivesRollback()
    ensures StillMentions("passwd: " + MARK)
  {
    AddedShape();
    var line := "passwd: " + MARK;
    assert |line| < |ADDED|;
    assert RemoveFirst(line, ADDED) == line;
    NoHash(line);
    assert line[8..15] == MARK;
    assert OccursAt(line, MARK, 8);
    assert line[..7] == "passwd:";
  }
}
