/** Rewriting a user's authorized_keys file with the keys from metadata. */
module AuthorizedKeys {
  import opened Sequences
  import opened Text

  const COMMENT: string := "# Added by Google"

  /** The user's own lines: empty lines go, and so does each comment with the non-empty line after it. */
  function UserLines(lines: seq<string>, isGoogle: bool): seq<string> {
    if lines == [] then []
    else if lines[0] == "" then UserLines(lines[1..], isGoogle)
    else if isGoogle then UserLines(lines[1..], false)
    else if lines[0] == COMMENT then UserLines(lines[1..], true)
    else [lines[0]] + UserLines(lines[1..], false)
  }

  /** Whether a comment still waits for its key after these lines. */
  function Waiting(lines: seq<string>, isGoogle: bool): bool {
    if lines == [] then isGoogle
    else if lines[0] == "" then Waiting(lines[1..], isGoogle)
    else Waiting(lines[1..], !isGoogle && lines[0] == COMMENT)
  }

  function Parse(content: string): seq<string> { UserLines(Split(content, NEWLINE), false) }

  function KeyLines(keys: seq<string>): seq<string> {
    if keys == [] then [] else KeyLines(keys[..|keys| - 1]) + [COMMENT, keys[|keys| - 1]]
  }

  /** The two lines written for one key. */
  function KeyText(key: string): string { COMMENT + [NEWLINE] + key + [NEWLINE] }

  function KeyTexts(keys: seq<string>): string {
    if keys == [] then "" else KeyTexts(keys[..|keys| - 1]) + KeyText(keys[|keys| - 1])
  }

  function Render(user: seq<string>, keys: seq<string>): string { Terminated(user + KeyLines(keys)) }

  /** The file after an update; a missing file reads as empty, and no keys at all removes the file. */
  function Updated(file: Option<string>, keys: seq<string>): Option<string> {
    if keys == [] then None
    else Some(Render(Parse(Content(file)), keys))
  }

  method ReadUserKeys(content: string) returns (userKeys: seq<string>)
    ensures userKeys == Parse(content)
  {
    var isGoogle := false;
    userKeys := [];
    var lines := Split(content, NEWLINE);
    for i := 0 to |lines|
      invariant UserLines(lines, false) == userKeys + UserLines(lines[i..], isGoogle)
    {
      var key := lines[i];
      assert lines[i..][0] == key && lines[i..][1..] == lines[i + 1..];
      if key == "" { continue; }
      if isGoogle {
        isGoogle := false;
        continue;
      }
      if key == COMMENT {
        isGoogle := true;
        continue;
      }
      userKeys := userKeys + [key];
    }
  }

  method RenderKeys(userKeys: seq<string>, keys: seq<string>) returns (output: string)
    ensures output == Render(userKeys, keys)
  {
    output := Join(userKeys, NEWLINE);
    if |userKeys| > 0 { output := output + [NEWLINE]; }
    TerminatedIsJoined(userKeys);
    for i := 0 to |keys|
      invariant output == Terminated(userKeys) + KeyTexts(keys[..i])
    {
      assert keys[..i + 1][..i] == keys[..i];
      output := output + KeyText(keys[i]);
    }
    assert keys[..|keys|] == keys;
    KeyTextsAreTerminated(keys);
    TerminatedConcat(userKeys, KeyLines(keys));
  }

  method UpdateSSHKeys(file: Option<string>, keys: seq<string>) returns (r: Option<string>)
    ensures r == Updated(file, keys)
  {
    if |keys| == 0 { return None; }
    var content := Content(file);
    var userKeys := ReadUserKeys(content);
    var output := RenderKeys(userKeys, keys);
    return Some(output);
  }

  lemma OneKeyTerminated(key: string)
    ensures Terminated([COMMENT, key]) == KeyText(key)
  {
    assert [COMMENT, key][1..] == [key] && [key][1..] == [];
    assert Terminated([key]) == key + [NEWLINE] + "" == key + [NEWLINE];
    assert COMMENT + [NEWLINE] + (key + [NEWLINE]) == KeyText(key);
  }

  lemma {:induction false} KeyTextsAreTerminated(keys: seq<string>)
    ensures KeyTexts(keys) == Terminated(KeyLines(keys))
  {
    if keys != [] {
      var front, last := keys[..|keys| - 1], keys[|keys| - 1];
      KeyTextsAreTerminated(front);
      TerminatedConcat(KeyLines(front), [COMMENT, last]);
      OneKeyTerminated(last);
    }
  }

  lemma {:induction false} UserLinesConcat(a: seq<string>, b: seq<string>, isGoogle: bool)
    ensures UserLines(a + b, isGoogle) == UserLines(a, isGoogle) + UserLines(b, Waiting(a, isGoogle))
    ensures Waiting(a + b, isGoogle) == Waiting(b, Waiting(a, isGoogle))
  {
    if a == [] {
      assert a + b == b;
    } else {
      assert (a + b)[1..] == a[1..] + b;
      UserLinesConcat(a[1..], b, if a[0] == "" then isGoogle else !isGoogle && a[0] == COMMENT);
    }
  }

  /** A line the parser keeps when it sees it: not empty, one line, not the comment. */
  ghost predicate OwnLines(lines: seq<string>) {
    forall l | l in lines :: l != "" && l != COMMENT && NEWLINE !in l
  }

  lemma {:induction false} ParsedLinesAreOwn(lines: seq<string>, isGoogle: bool)
    requires AllWithout(lines, NEWLINE)
    ensures OwnLines(UserLines(lines, isGoogle))
    ensures forall l | l in UserLines(lines, isGoogle) :: l in lines
  {
    if lines != [] {
      assert lines[0] in lines;
      ParsedLinesAreOwn(lines[1..], true);
      ParsedLinesAreOwn(lines[1..], false);
    }
  }

  lemma {:induction false} OwnLinesStay(lines: seq<string>)
    requires OwnLines(lines)
    ensures UserLines(lines, false) == lines && !Waiting(lines, false)
  {
    if lines != [] {
      assert lines[0] in lines;
      assert OwnLines(lines[1..]) by {
        forall l | l in lines[1..] ensures l != "" && l != COMMENT && NEWLINE !in l { assert l in lines; }
      }
      OwnLinesStay(lines[1..]);
    }
  }

  // ---------- Which lines are the user's ----------

  /** Among lines that are not empty: a line announced by the comment before it, whatever it reads. */
  predicate IsKey(lines: seq<string>, i: nat)
    requires i < |lines|
  {
    i > 0 && lines[i - 1] == "# Added by Google" && !IsKey(lines, i - 1)
  }

  /** A comment that announces the next line. */
  predicate IsMarker(lines: seq<string>, i: nat)
    requires i < |lines|
  {
    lines[i] == "# Added by Google" && !IsKey(lines, i)
  }

  /** Those of the first n lines that are neither. */
  function OwnOf(lines: seq<string>, n: nat): seq<string>
    requires n <= |lines|
  {
    if n == 0 then []
    else OwnOf(lines, n - 1) + if IsMarker(lines, n - 1) || IsKey(lines, n - 1) then [] else [lines[n - 1]]
  }

  lemma {:induction false} EmptyLinesDoNotCount(lines: seq<string>, isGoogle: bool)
    ensures UserLines(lines, isGoogle) == UserLines(Without(lines, ""), isGoogle)
  {
    if lines != [] {
      var rest := Without(lines[1..], "");
      EmptyLinesDoNotCount(lines[1..], true);
      EmptyLinesDoNotCount(lines[1..], false);
      if lines[0] != "" { assert ([lines[0]] + rest)[1..] == rest; }
    }
  }

  lemma OneLine(line: string, isGoogle: bool)
    requires line != ""
    ensures UserLines([line], isGoogle) == if isGoogle || line == COMMENT then [] else [line]
    ensures Waiting([line], isGoogle) <==> !isGoogle && line == COMMENT
  {
    assert [line][1..] == [];
  }

  lemma {:induction false} UserLinesAreOwn(lines: seq<string>, n: nat)
    requires n <= |lines| && "" !in lines
    ensures UserLines(lines[..n], false) == OwnOf(lines, n)
    ensures Waiting(lines[..n], false) <==> n > 0 && IsMarker(lines, n - 1)
  {
    if n > 0 {
      UserLinesAreOwn(lines, n - 1);
      assert lines[n - 1] in lines;
      assert lines[..n] == lines[..n - 1] + [lines[n - 1]];
      UserLinesConcat(lines[..n - 1], [lines[n - 1]], false);
      OneLine(lines[n - 1], Waiting(lines[..n - 1], false));
    }
  }

  /** Of any file, the user's own lines are those neither empty, nor an announcing comment, nor announced by one. */
  lemma {:induction false} ParseIsOwn(content: string)
    ensures var lines := Without(Split(content, NEWLINE), "");
            Parse(content) == OwnOf(lines, |lines|)
  {
    var all := Split(content, NEWLINE);
    var lines := Without(all, "");
    EmptyLinesDoNotCount(all, false);
    WithoutMembers(all, "");
    UserLinesAreOwn(lines, |lines|);
    assert lines[..|lines|] == lines;
  }

  // ---------- Which keys the parser takes for the user's ----------

  /** After n keys a comment still waits for its key: the last one was empty, or itself the comment it was read for. */
  function Missing(keys: seq<string>, n: nat): bool
    requires n <= |keys|
  {
    n > 0 && keys[n - 1] == if Missing(keys, n - 1) then COMMENT else ""
  }

  /** A key that follows while a comment waits, since the comment before it is then read as the missing key. */
  predicate LeaksAt(keys: seq<string>, i: nat)
    requires i < |keys|
  {
    Missing(keys, i) && keys[i] != "" && keys[i] != COMMENT
  }

  /** Those of the first n keys that leak. */
  function Leaked(keys: seq<string>, n: nat): seq<string>
    requires n <= |keys|
  {
    if n == 0 then [] else Leaked(keys, n - 1) + if LeaksAt(keys, n - 1) then [keys[n - 1]] else []
  }

  /** No key follows a missing one. */
  predicate NoneLeaks(keys: seq<string>) { forall i | 0 <= i < |keys| :: !LeaksAt(keys, i) }

  lemma OneKeyLines(key: string, isGoogle: bool)
    ensures UserLines([COMMENT, key], isGoogle) == if isGoogle && key != "" && key != COMMENT then [key] else []
    ensures Waiting([COMMENT, key], isGoogle) <==> key == if isGoogle then COMMENT else ""
  {
    var pair, rest := [COMMENT, key], [key];
    assert pair[1..] == rest && rest[1..] == [];
    assert COMMENT[0] == '#';
    assert UserLines(rest, true) == [] && (Waiting(rest, true) <==> key == "");
    assert UserLines(rest, false) == if key == "" || key == COMMENT then [] else [key];
    assert Waiting(rest, false) <==> key == COMMENT;
  }

  lemma {:induction false} KeyLinesAreLines(keys: seq<string>)
    requires AllWithout(keys, NEWLINE)
    ensures AllWithout(KeyLines(keys), NEWLINE)
  {
    if keys != [] {
      var front, last := keys[..|keys| - 1], keys[|keys| - 1];
      assert last in keys && forall k | k in front :: k in keys;
      KeyLinesAreLines(front);
      assert NEWLINE !in COMMENT;
    }
  }

  lemma {:induction false} KeyLinesLeak(keys: seq<string>, n: nat)
    requires n <= |keys|
    ensures UserLines(KeyLines(keys[..n]), false) == Leaked(keys, n)
    ensures Waiting(KeyLines(keys[..n]), false) <==> Missing(keys, n)
  {
    if n > 0 {
      KeyLinesLeak(keys, n - 1);
      assert keys[..n][..n - 1] == keys[..n - 1];
      UserLinesConcat(KeyLines(keys[..n - 1]), [COMMENT, keys[n - 1]], false);
      OneKeyLines(keys[n - 1], Missing(keys, n - 1));
    }
  }

  lemma {:induction false} LeakedNoneIff(keys: seq<string>, n: nat)
    requires n <= |keys|
    ensures Leaked(keys, n) == [] <==> forall i | 0 <= i < n :: !LeaksAt(keys, i)
  {
    if n > 0 {
      LeakedNoneIff(keys, n - 1);
      var last := LeaksAt(keys, n - 1);
      assert |Leaked(keys, n)| == |Leaked(keys, n - 1)| + if last then 1 else 0;
    }
  }

  lemma {:induction false} NonEmptyKeysLeakNothing(keys: seq<string>, n: nat)
    requires n <= |keys| && "" !in keys
    ensures !Missing(keys, n) && Leaked(keys, n) == []
  {
    if n > 0 {
      assert keys[n - 1] in keys;
      NonEmptyKeysLeakNothing(keys, n - 1);
    }
  }

  lemma ParseTerminated(lines: seq<string>)
    requires AllWithout(lines, NEWLINE)
    ensures Parse(Terminated(lines)) == UserLines(lines, false)
  {
    SplitTerminated(lines);
    SplitAllSame(lines, NEWLINE);
    UserLinesConcat(lines, [""], false);
    assert [""][1..] == [];
  }

  /** Reading a rendered file gives back the user's own lines, in order, and then exactly the keys that leak. */
  lemma {:induction false} ParseRender(user: seq<string>, keys: seq<string>)
    requires OwnLines(user) && AllWithout(keys, NEWLINE)
    ensures Parse(Render(user, keys)) == user + Leaked(keys, |keys|)
  {
    KeyLinesLeak(keys, |keys|);
    assert keys[..|keys|] == keys;
    KeyLinesAreLines(keys);
    ParseTerminated(user + KeyLines(keys));
    UserLinesConcat(user, KeyLines(keys), false);
    OwnLinesStay(user);
  }

  /** Exactly the user's own lines come back exactly when no key follows a missing one; with no empty key, always. */
  lemma {:induction false} ParseRenderIff(user: seq<string>, keys: seq<string>)
    requires OwnLines(user) && AllWithout(keys, NEWLINE)
    ensures Parse(Render(user, keys)) == user <==> NoneLeaks(keys)
    ensures "" !in keys ==> NoneLeaks(keys)
  {
    ParseRender(user, keys);
    NoneLeaksIff(keys);
    assert user + [] == user;
  }

  lemma NoneLeaksIff(keys: seq<string>)
    ensures NoneLeaks(keys) <==> Leaked(keys, |keys|) == []
    ensures "" !in keys ==> NoneLeaks(keys)
  {
    LeakedNoneIff(keys, |keys|);
    if "" !in keys { NonEmptyKeysLeakNothing(keys, |keys|); }
  }

  /** Whatever the file holds, an update keeps the user's own lines, and adds the keys that leak. */
  lemma {:induction false} UpdateKeepsUserLines(file: Option<string>, keys: seq<string>)
    requires keys != [] && AllWithout(keys, NEWLINE)
    ensures Updated(file, keys).Some?
    ensures Parse(Updated(file, keys).value) == Parse(Content(file)) + Leaked(keys, |keys|)
    ensures NoneLeaks(keys) ==> Parse(Updated(file, keys).value) == Parse(Content(file))
  {
    ParsedLinesAreOwn(Split(Content(file), NEWLINE), false);
    ParseRender(Parse(Content(file)), keys);
    ParseRenderIff(Parse(Content(file)), keys);
  }

  lemma {:induction false} KeyLinesInOrder(keys: seq<string>, i: nat)
    requires i < |keys|
    ensures |KeyLines(keys)| == 2 * |keys|
    ensures KeyLines(keys)[2 * i] == "# Added by Google" && KeyLines(keys)[2 * i + 1] == keys[i]
  {
    var front := keys[..|keys| - 1];
    if i < |front| { KeyLinesInOrder(front, i); } else if front != [] { KeyLinesInOrder(front, 0); }
  }

  lemma RenderSplits(user: seq<string>, keys: seq<string>)
    requires AllWithout(user, NEWLINE) && AllWithout(keys, NEWLINE)
    ensures Split(Render(user, keys), NEWLINE) == user + KeyLines(keys) + [""]
  {
    KeyLinesAreLines(keys);
    SplitTerminated(user + KeyLines(keys));
    SplitAllSame(user + KeyLines(keys), NEWLINE);
  }

  /** lines are the user's own, and then each key behind a comment, in order, all terminated. */
  ghost predicate KeysBehind(lines: seq<string>, user: seq<string>, keys: seq<string>) {
    && |lines| == |user| + 2 * |keys| + 1 && lines[..|user|] == user && lines[|lines| - 1] == ""
    && forall i | 0 <= i < |keys| ::
         lines[|user| + 2 * i] == "# Added by Google" && lines[|user| + 2 * i + 1] == keys[i]
  }

  lemma KeysStandBehind(user: seq<string>, keys: seq<string>)
    requires keys != []
    ensures KeysBehind(user + KeyLines(keys) + [""], user, keys)
  {
    var added := KeyLines(keys);
    KeyLinesInOrder(keys, 0);
    var lines := user + added + [""];
    forall i | 0 <= i < |keys|
      ensures lines[|user| + 2 * i] == "# Added by Google" && lines[|user| + 2 * i + 1] == keys[i]
    {
      KeyLinesInOrder(keys, i);
      assert lines[|user| + 2 * i] == added[2 * i] && lines[|user| + 2 * i + 1] == added[2 * i + 1];
    }
  }

  /** The file after an update, line by line: the user's own lines, and each key behind a comment, in order. */
  lemma {:induction false} UpdatedLines(file: Option<string>, keys: seq<string>)
    requires keys != [] && AllWithout(keys, NEWLINE)
    ensures Updated(file, keys).Some?
    ensures KeysBehind(Split(Updated(file, keys).value, NEWLINE), Parse(Content(file)), keys)
  {
    ParsedLinesAreOwn(Split(Content(file), NEWLINE), false);
    RenderSplits(Parse(Content(file)), keys);
    KeysStandBehind(Parse(Content(file)), keys);
  }

  lemma RenderSameIff(user: seq<string>, more: seq<string>, keys: seq<string>)
    ensures Render(user + more, keys) == Render(user, keys) <==> more == []
  {
    if more == [] {
      assert user + more == user;
    } else {
      TerminatedConcat(user + more, KeyLines(keys));
      TerminatedConcat(user, more);
      TerminatedConcat(user, KeyLines(keys));
      assert |Terminated(more)| > 0;
    }
  }

  /**
    * The keys of an earlier update leave no trace in a later one exactly when none of them leaks, or the
    * later one removes the file. An earlier update with no keys removes the file and the user's own lines.
    */
  lemma {:induction false} LastUpdateWinsIff(file: Option<string>, k1: seq<string>, k2: seq<string>)
    requires AllWithout(k1, NEWLINE) && AllWithout(k2, NEWLINE)
    ensures Updated(Updated(file, k1), k2) == Updated(file, k2) <==>
            k2 == [] || if k1 == [] then Parse(Content(file)) == [] else NoneLeaks(k1)
    ensures "" !in k1 ==> NoneLeaks(k1)
  {
    var user := Parse(Content(file));
    NoneLeaksIff(k1);
    if k2 != [] {
      if k1 == [] {
        assert Parse("") == [] by { assert [""][1..] == []; }
        assert [] + user == user;
        RenderSameIff([], user, k2);
      } else {
        UpdateKeepsUserLines(file, k1);
        RenderSameIff(user, Leaked(k1, |k1|), k2);
      }
    }
  }

  /** The smallest leak: an empty key and the one after it. */
  lemma EmptyKeyLeaksNextKey(key: string)
    requires key != "" && key != COMMENT && NEWLINE !in key
    ensures Parse(Render([], ["", key])) == [key]
  {
    var keys := ["", key];
    assert Leaked(keys, 1) == [];
    assert LeaksAt(keys, 1);
    ParseRender([], keys);
  }
}
