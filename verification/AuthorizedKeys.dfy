/** Adding and removing lines of root's authorized_keys. */
module AuthorizedKeys {
  import opened Text

  datatype File = Missing | Contents(text: string)

  /** A line stands for a key if they agree up to surrounding space. */
  predicate Matches(line: string, key: string) {
    TrimSpace(line) == TrimSpace(key)
  }

  ghost predicate LineExists(lines: seq<string>, key: string) {
    exists i :: 0 <= i < |lines| && Matches(lines[i], key)
  }

  ghost predicate Exists(text: string, key: string) {
    LineExists(Split(text, NL), key)
  }

  /** The lines that do not stand for the key. */
  function Kept(lines: seq<string>, key: string): seq<string> {
    if lines == [] then []
    else (if Matches(lines[0], key) then [] else [lines[0]]) + Kept(lines[1..], key)
  }

  ghost function AddText(text: string, key: string): string {
    if Exists(text, key) then text else text + key + [NL]
  }

  function RemoveText(text: string, key: string): string {
    var lines := Split(text, NL);
    var kept := Kept(lines, key);
    if |kept| == |lines| then text else Join(kept, NL)
  }

  class KeyFile {
    var file: File

    constructor ()
      ensures file == Missing
    {
      file := Missing;
    }

    /** addSSHKey; false is the "public key is required" error. A missing file is
        created with the key alone. */
    method AddSSHKey(key: string) returns (ok: bool)
      modifies this
      ensures ok <==> key != ""
      ensures !ok ==> file == old(file)
      ensures ok && old(file).Missing? ==> file == Contents(key + [NL])
      ensures ok && old(file).Contents? ==> file == Contents(AddText(old(file).text, key))
    {
      if key == "" {
        return false;
      }
      if file.Contents? {
        var present := KeyExists(file.text, key);
        if present {
          return true;
        }
      }
      file := Contents((if file.Contents? then file.text else "") + key + [NL]);
      assert "" + key == key;
      return true;
    }

    /** removeSSHKey. */
    method RemoveSSHKey(key: string) returns (ok: bool)
      modifies this
      ensures ok <==> key != ""
      ensures !ok || old(file).Missing? ==> file == old(file)
      ensures ok && old(file).Contents? ==> file == Contents(RemoveText(old(file).text, key))
    {
      if key == "" {
        return false;
      }
      if file.Missing? {
        return true;
      }
      var lines := Split(file.text, NL);
      var kept := KeepOthers(lines, key);
      if |kept| == |lines| {
        return true;
      }
      file := Contents(Join(kept, NL));
      return true;
    }
  }

  method KeyExists(text: string, key: string) returns (found: bool)
    ensures found == Exists(text, key)
  {
    var lines := Split(text, NL);
    var i := 0;
    while i < |lines|
      invariant 0 <= i <= |lines|
      invariant forall j :: 0 <= j < i ==> !Matches(lines[j], key)
    {
      if TrimSpace(lines[i]) == TrimSpace(key) {
        assert Matches(lines[i], key);
        return true;
      }
      i := i + 1;
    }
    return false;
  }

  method KeepOthers(lines: seq<string>, key: string) returns (kept: seq<string>)
    ensures kept == Kept(lines, key)
  {
    kept := [];
    var i := 0;
    while i < |lines|
      invariant 0 <= i <= |lines|
      invariant kept == Kept(lines[..i], key)
    {
      KeptSnoc(lines, i, key);
      if TrimSpace(lines[i]) != TrimSpace(key) {
        kept := kept + [lines[i]];
      }
      i := i + 1;
    }
    assert lines[..i] == lines;
  }

  lemma KeptSnoc(lines: seq<string>, i: nat, key: string)
    requires i < |lines|
    ensures Kept(lines[..i + 1], key) == Kept(lines[..i], key) + if Matches(lines[i], key) then [] else [lines[i]]
  {
    assert lines[..i + 1] == lines[..i] + [lines[i]];
    KeptAppend(lines[..i], [lines[i]], key);
    KeptOne(lines[i], key);
  }

  // Trimming

  lemma {:induction false} TrimLeftConcat(a: string, b: string)
    ensures TrimLeft(a + b) == if Blank(a) then TrimLeft(b) else TrimLeft(a) + b
    ensures Blank(a) <==> TrimLeft(a) == ""
  {
    if a == "" {
      assert a + b == b;
    } else if IsSpace(a[0]) {
      assert (a + b)[1..] == a[1..] + b;
      TrimLeftConcat(a[1..], b);
      assert Blank(a) <==> Blank(a[1..]);
    } else {
      assert (a + b)[0] == a[0];
    }
  }

  lemma {:induction false} TrimRightConcat(a: string, b: string)
    ensures TrimRight(a + b) == if Blank(b) then TrimRight(a) else a + TrimRight(b)
    ensures Blank(b) <==> TrimRight(b) == ""
  {
    if b == "" {
      assert a + b == a;
    } else if IsSpace(b[|b| - 1]) {
      assert (a + b)[..|a + b| - 1] == a + b[..|b| - 1];
      TrimRightConcat(a, b[..|b| - 1]);
      assert Blank(b) <==> Blank(b[..|b| - 1]);
    } else {
      assert (a + b)[|a + b| - 1] == b[|b| - 1];
    }
  }

  /** Trimming a concatenation whose right part is not blank. */
  lemma TrimConcat(a: string, b: string)
    requires !Blank(b)
    ensures TrimSpace(a + b) == if Blank(a) then TrimSpace(b) else TrimLeft(a) + TrimRight(b)
    ensures !Blank(a) ==> |TrimSpace(b)| < |TrimSpace(a + b)|
  {
    TrimLeftConcat(a, b);
    TrimRightConcat(TrimLeft(a), b);
    TrimLeftShrinks(b);
    TrimLeftConcat(a, "");
  }

  lemma {:induction false} TrimLeftShrinks(b: string)
    ensures |TrimSpace(b)| <= |TrimRight(b)|
  {
    if b != "" && IsSpace(b[0]) {
      TrimLeftShrinks(b[1..]);
      assert b == [b[0]] + b[1..];
      TrimRightConcat([b[0]], b[1..]);
    }
  }

  lemma TrimBlankIff(s: string)
    ensures Blank(s) <==> TrimSpace(s) == ""
  {
    TrimLeftConcat(s, "");
    TrimRightConcat("", TrimLeft(s));
    if !Blank(s) {
      TrimLeftFirst(s);
    }
  }

  lemma {:induction false} TrimLeftFirst(s: string)
    requires !Blank(s)
    ensures TrimLeft(s) != "" && !IsSpace(TrimLeft(s)[0])
  {
    if IsSpace(s[0]) {
      TrimLeftFirst(s[1..]);
    }
  }

  // Lists of lines

  lemma {:induction false} KeptAppend(a: seq<string>, b: seq<string>, key: string)
    ensures Kept(a + b, key) == Kept(a, key) + Kept(b, key)
  {
    if a == [] {
      assert a + b == b;
    } else {
      assert (a + b)[0] == a[0] && (a + b)[1..] == a[1..] + b;
      KeptAppend(a[1..], b, key);
    }
  }

  /** Exactly the other lines survive, and the key is gone. */
  lemma {:induction false} KeptLines(lines: seq<string>, key: string, other: string)
    ensures !LineExists(Kept(lines, key), key)
    ensures !Matches(other, key) ==> (LineExists(Kept(lines, key), other) <==> LineExists(lines, other))
  {
    if lines != [] {
      var rest := Kept(lines[1..], key);
      KeptLines(lines[1..], key, other);
      ExistsCons(lines[0], lines[1..], other);
      ExistsCons(lines[0], rest, key);
      ExistsCons(lines[0], rest, other);
      assert [lines[0]] + lines[1..] == lines;
      assert Kept(lines, key) == if Matches(lines[0], key) then rest else [lines[0]] + rest;
    }
  }

  /** The number of lines tells whether the key was there. */
  lemma {:induction false} KeptSize(lines: seq<string>, key: string)
    ensures |Kept(lines, key)| <= |lines|
    ensures |Kept(lines, key)| == |lines| <==> !LineExists(lines, key)
    ensures |Kept(lines, key)| == |lines| ==> Kept(lines, key) == lines
  {
    if lines != [] {
      KeptSize(lines[1..], key);
      ExistsCons(lines[0], lines[1..], key);
      assert [lines[0]] + lines[1..] == lines;
    }
  }

  lemma ExistsCons(line: string, rest: seq<string>, key: string)
    ensures LineExists([line] + rest, key) <==> Matches(line, key) || LineExists(rest, key)
  {
    var all := [line] + rest;
    assert forall i :: 0 <= i < |rest| ==> all[i + 1] == rest[i];
    if Matches(line, key) {
      assert Matches(all[0], key);
    }
    if LineExists(rest, key) {
      var i :| 0 <= i < |rest| && Matches(rest[i], key);
      assert Matches(all[i + 1], key);
    }
  }

  lemma ExistsAppend(a: seq<string>, b: seq<string>, key: string)
    ensures LineExists(a + b, key) <==> LineExists(a, key) || LineExists(b, key)
  {
    var all := a + b;
    if LineExists(a, key) {
      var i :| 0 <= i < |a| && Matches(a[i], key);
      assert Matches(all[i], key);
    }
    if LineExists(b, key) {
      var i :| 0 <= i < |b| && Matches(b[i], key);
      assert all[|a| + i] == b[i] && Matches(all[|a| + i], key);
    }
    if LineExists(all, key) {
      var i :| 0 <= i < |all| && Matches(all[i], key);
      assert i < |a| ==> Matches(a[i], key);
      assert i >= |a| ==> Matches(b[i - |a|], key);
    }
  }

  /** Empty, or ending in a newline: the last piece is empty. */
  predicate Terminated(text: string) {
    text == "" || text[|text| - 1] == NL
  }

  /** The lines before the last piece, and the last piece. */
  function Init(text: string): seq<string> {
    var lines := Split(text, NL); lines[..|lines| - 1]
  }

  function Last(text: string): string {
    var lines := Split(text, NL); lines[|lines| - 1]
  }

  lemma TerminatedIff(text: string)
    ensures Terminated(text) <==> Last(text) == ""
    ensures Split(text, NL) == Init(text) + [Last(text)]
  {
    LastPieceEmptyIff(text, NL);
  }

  /** What a removal leaves, line by line. */
  lemma RemoveLines(text: string, key: string)
    ensures var kept := Kept(Split(text, NL), key);
            Split(RemoveText(text, key), NL) == if kept == [] then [""] else kept
  {
    var lines := Split(text, NL);
    var kept := Kept(lines, key);
    KeptSize(lines, key);
    if |kept| != |lines| && kept != [] {
      KeptClean(text, key);
      SplitJoin(kept, NL);
    }
  }

  lemma KeptClean(text: string, key: string)
    ensures forall i :: 0 <= i < |Kept(Split(text, NL), key)| ==> NL !in Kept(Split(text, NL), key)[i]
  {
    var lines := Split(text, NL);
    forall i | 0 <= i < |lines|
      ensures NL !in lines[i]
    {
      PiecesAreClean(text, NL, i);
    }
    KeptSubset(lines, key);
  }

  lemma {:induction false} KeptSubset(lines: seq<string>, key: string)
    requires forall i :: 0 <= i < |lines| ==> NL !in lines[i]
    ensures forall i :: 0 <= i < |Kept(lines, key)| ==> NL !in Kept(lines, key)[i]
  {
    if lines != [] {
      KeptSubset(lines[1..], key);
    }
  }

  /** What an addition writes, line by line, in general and for a one-line key. */
  lemma AddLines(text: string, key: string)
    ensures Terminated(text) ==> Split(text + key + [NL], NL) == Init(text) + Split(key, NL) + [""]
    ensures NL !in key ==> Split(text + key + [NL], NL) == Init(text) + [Last(text) + key] + [""]
  {
    assert text + key + [NL] == (text + key) + [NL] + "";
    SplitConcat(text + key, "", NL);
    if NL !in key {
      SplitExtend(text, key, NL);
    }
    if text == "" {
      assert text + key == key && Init(text) == [];
    } else if text[|text| - 1] == NL {
      var body := text[..|text| - 1];
      assert text == body + [NL] + "" && text + key == body + [NL] + key;
      SplitConcat(body, "", NL);
      SplitConcat(body, key, NL);
    }
  }

  // Laws

  /** Exactly when an added key can be found: it was there already; it is blank; or it
      stays on one line once trimmed, and that line is not glued to a non-blank end of
      the file, because there is none or because the key starts with a blank line. */
  predicate FoundOnceAdded(text: string, key: string) {
    || Blank(key)
    || (NL !in TrimSpace(key) && (Blank(Last(text)) || Blank(Split(key, NL)[0])))
  }

  lemma BlankIsFound(text: string, key: string)
    requires Blank(key)
    ensures Exists(text + key + [NL], key)
  {
    assert text + key + [NL] == (text + key) + [NL] + "";
    SplitConcat(text + key, "", NL);
    TrimBlankIff(key);
    OneLineExists("", key);
    ExistsAppend(Split(text + key, NL), [""], key);
  }

  lemma OneLineFoundIff(text: string, key: string)
    requires !Blank(key) && NL !in key && !Exists(text, key)
    ensures Exists(text + key + [NL], key) <==> Blank(Last(text))
  {
    AddLines(text, key);
    TerminatedIff(text);
    ExistsAppend(Init(text), [Last(text)], key);
    ExistsAppend(Init(text) + [Last(text) + key], [""], key);
    ExistsAppend(Init(text), [Last(text) + key], key);
    TrimConcat(Last(text), key);
    TrimBlankIff(key);
    OneLineExists(Last(text) + key, key);
    OneLineExists("", key);
  }

  lemma TrimBlankEnd(a: string, b: string)
    requires Blank(b)
    ensures TrimSpace(a + b) == TrimSpace(a)
  {
    TrimLeftConcat(a, b);
    if Blank(a) {
      TrimLeftConcat(a, "");
      TrimLeftConcat(b, "");
    } else {
      TrimRightConcat(TrimLeft(a), b);
    }
  }

  lemma BlankHasNoKey(parts: seq<string>, key: string)
    requires Blank(Join(parts, NL)) && !Blank(key)
    ensures !LineExists(parts, key)
  {
    TrimBlankIff(key);
    forall i | 0 <= i < |parts|
      ensures !Matches(parts[i], key)
    {
      BlankJoin(parts, i);
      TrimBlankIff(parts[i]);
    }
  }

  /** A line of a text stands for the whole of it if and only if trimming leaves one line. */
  lemma {:induction false} LineStandsIff(parts: seq<string>, key: string)
    requires parts != [] && forall i :: 0 <= i < |parts| ==> NL !in parts[i]
    requires !Blank(key) && TrimSpace(Join(parts, NL)) == TrimSpace(key)
    ensures LineExists(parts, key) <==> NL !in TrimSpace(key)
  {
    var p, rest := parts[0], parts[1..];
    var tail := Join(rest, NL);
    TrimKeepsOut(p);
    OneLineExists(p, key);
    if |parts| == 1 {
      assert parts == [p];
    } else {
      assert Join(parts, NL) == p + [NL] + tail && parts == [p] + rest;
      ExistsCons(p, rest, key);
      if Blank(tail) {
        assert p + [NL] + tail == p + ([NL] + tail);
        TrimBlankEnd(p, [NL] + tail);
      } else if Blank(p) {
        TrimConcat(p + [NL], tail);
        LineStandsIff(rest, key);
        TrimBlankIff(p);
        TrimBlankIff(key);
      } else {
        TrimmedHasNewline(p, tail);
        NoLineMatches(parts, key);
      }
    }
  }

  /** The lines after an add whose key consists of a first line and more. */
  lemma AddedLines(text: string, first: string, more: string, key: string)
    requires key == first + [NL] + more && NL !in first && !Blank(key)
    ensures Exists(text + key + [NL], key) <==>
            LineExists(Init(text), key) || Matches(Last(text) + first, key) || LineExists(Split(more, NL), key)
  {
    assert text + key + [NL] == (text + first) + [NL] + (more + [NL] + "");
    SplitConcat(text + first, more + [NL] + "", NL);
    SplitConcat(more, "", NL);
    SplitExtend(text, first, NL);
    var head := Init(text) + [Last(text) + first];
    ExistsAppend(head, Split(more, NL) + [""], key);
    ExistsAppend(Split(more, NL), [""], key);
    ExistsAppend(Init(text), [Last(text) + first], key);
    OneLineExists(Last(text) + first, key);
    OneLineExists("", key);
    TrimBlankIff(key);
  }

  lemma SplitKey(key: string) returns (first: string, more: string)
    requires NL in key
    ensures first == Split(key, NL)[0] && NL !in first && key == first + [NL] + more
  {
    first := Split(key, NL)[0];
    PiecesAreClean(key, NL, 0);
    FirstPieceLeads(key, NL);
    more := key[|first| + 1..];
  }

  /** The first line decides for itself if nothing but blanks follows. */
  lemma FirstLineFoundIff(text: string, first: string, more: string, key: string)
    requires key == first + [NL] + more && NL !in first && !Blank(key) && Blank(more) && !Exists(text, key)
    ensures Exists(text + key + [NL], key) <==> Blank(Last(text))
    ensures NL !in TrimSpace(key) && !Blank(first)
  {
    AddedLines(text, first, more, key);
    AbsentFromInit(text, key);
    JoinSplit(more, NL);
    BlankHasNoKey(Split(more, NL), key);
    FirstLineIsAll(first, more, key);
    TrimConcat(Last(text), first);
  }

  lemma FirstLineIsAll(first: string, more: string, key: string)
    requires key == first + [NL] + more && NL !in first && !Blank(key) && Blank(more)
    ensures TrimSpace(key) == TrimSpace(first) && NL !in TrimSpace(key) && !Blank(first)
  {
    assert key == first + ([NL] + more);
    TrimBlankEnd(first, [NL] + more);
    TrimBlankIff(first);
    TrimBlankIff(key);
    TrimKeepsOut(first);
  }

  lemma AbsentFromInit(text: string, key: string)
    requires !Exists(text, key)
    ensures !LineExists(Init(text), key) && !Matches(Last(text), key)
  {
    TerminatedIff(text);
    ExistsAppend(Init(text), [Last(text)], key);
    OneLineExists(Last(text), key);
  }

  /** A blank first line is no part of what has to be found. */
  lemma LaterLineFoundIff(text: string, first: string, more: string, key: string)
    requires key == first + [NL] + more && NL !in first && Blank(first) && !Blank(more) && !Exists(text, key)
    requires !Blank(key)
    ensures Exists(text + key + [NL], key) <==> NL !in TrimSpace(key)
  {
    AddedLines(text, first, more, key);
    AbsentFromInit(text, key);
    TrimBlankEnd(Last(text), first);
    TrimConcat(first + [NL], more);
    var parts := Split(more, NL);
    JoinSplit(more, NL);
    forall i | 0 <= i < |parts|
      ensures NL !in parts[i]
    {
      PiecesAreClean(more, NL, i);
    }
    LineStandsIff(parts, key);
  }

  lemma SeveralLinesNotFound(text: string, key: string)
    requires NL in TrimSpace(key)
    ensures !Exists(text, key)
  {
    var parts := Split(text, NL);
    forall i | 0 <= i < |parts|
      ensures NL !in parts[i]
    {
      PiecesAreClean(text, NL, i);
    }
    NoLineMatches(parts, key);
  }

  /** For any file and any key: after an add the key is found exactly if it was there
      before or meets the condition above. */
  lemma AddMakesPresentIff(text: string, key: string)
    ensures Exists(AddText(text, key), key) <==> Exists(text, key) || FoundOnceAdded(text, key)
  {
    if Exists(text, key) {
    } else if Blank(key) {
      BlankIsFound(text, key);
    } else if NL !in key {
      OneLineFoundIff(text, key);
      SplitClean(key, NL);
      TrimKeepsOut(key);
    } else {
      var first, more := SplitKey(key);
      if Blank(more) {
        FirstLineFoundIff(text, first, more, key);
      } else if Blank(first) {
        LaterLineFoundIff(text, first, more, key);
      } else {
        TrimmedHasNewline(first, more);
        SeveralLinesNotFound(text + key + [NL], key);
      }
    }
  }

  lemma OneLineExists(line: string, key: string)
    ensures LineExists([line], key) <==> Matches(line, key)
  {
    assert [line][0] == line;
  }

  /** Adding twice is adding once, exactly under the same condition. */
  lemma AddIsIdempotentIff(text: string, key: string)
    ensures AddText(AddText(text, key), key) == AddText(text, key) <==> Exists(text, key) || FoundOnceAdded(text, key)
  {
    AddMakesPresentIff(text, key);
    var once := AddText(text, key);
    if !Exists(once, key) {
      assert |AddText(once, key)| > |once|;
    }
  }

  /** On a newline-terminated file adding is idempotent, keeps the file terminated
      and leaves every other key as it was. */
  lemma AddOnTerminated(text: string, key: string, other: string)
    requires Terminated(text) && !Blank(key) && NL !in key && !Blank(other) && !Matches(other, key)
    ensures AddText(AddText(text, key), key) == AddText(text, key)
    ensures Exists(AddText(text, key), key)
    ensures Terminated(AddText(text, key))
    ensures Exists(AddText(text, key), other) <==> Exists(text, other)
  {
    TerminatedIff(text);
    TrimKeepsOut(key);
    AddIsIdempotentIff(text, key);
    AddMakesPresentIff(text, key);
    if !Exists(text, key) {
      AddLines(text, key);
      assert Last(text) + key == key;
      ExistsAppend(Init(text), [""], other);
      ExistsAppend(Init(text) + [key], [""], other);
      ExistsAppend(Init(text), [key], other);
      OneLineExists(key, other);
    }
  }

  /** Removing a non-blank key always makes it absent, keeps every other key, and
      keeps a terminated file terminated. */
  lemma RemoveMakesAbsent(text: string, key: string, other: string)
    requires !Blank(key) && !Blank(other) && !Matches(other, key)
    ensures !Exists(RemoveText(text, key), key)
    ensures Exists(RemoveText(text, key), other) <==> Exists(text, other)
    ensures Terminated(text) ==> Terminated(RemoveText(text, key))
  {
    var lines := Split(text, NL);
    RemoveLines(text, key);
    KeptLines(lines, key, other);
    TrimBlankIff(key);
    TrimBlankIff(other);
    OneLineExists("", key);
    OneLineExists("", other);
    if Terminated(text) {
      TerminatedIff(text);
      KeptAppend(Init(text), [""], key);
      KeptOne("", key);
      TerminatedIff(RemoveText(text, key));
    }
  }

  lemma KeptOne(line: string, key: string)
    ensures Kept([line], key) == if Matches(line, key) then [] else [line]
  {
    assert [line][1..] == [];
  }

  lemma BlankConcat(a: string, b: string)
    requires Blank(a + b)
    ensures Blank(a) && Blank(b)
  {
    forall i | 0 <= i < |a|
      ensures IsSpace(a[i])
    {
      assert (a + b)[i] == a[i];
    }
    forall i | 0 <= i < |b|
      ensures IsSpace(b[i])
    {
      assert (a + b)[|a| + i] == b[i];
    }
  }

  /** A blank text has only blank lines. */
  lemma {:induction false} BlankJoin(parts: seq<string>, i: nat)
    requires Blank(Join(parts, NL)) && i < |parts|
    ensures Blank(parts[i])
  {
    if |parts| > 1 {
      BlankConcat(parts[0] + [NL], Join(parts[1..], NL));
      BlankConcat(parts[0], [NL]);
      if i > 0 {
        BlankJoin(parts[1..], i - 1);
      }
    }
  }

  /** At most one line of a text can stand for the whole text. */
  lemma {:induction false} OneLineAtMost(parts: seq<string>, key: string)
    requires parts != [] && forall i :: 0 <= i < |parts| ==> NL !in parts[i]
    requires !Blank(key) && TrimSpace(Join(parts, NL)) == TrimSpace(key)
    ensures |Kept(parts, key)| >= |parts| - 1
  {
    var rest := parts[1..];
    TrimBlankIff(key);
    TrimBlankIff(parts[0]);
    if |parts| > 1 {
      var tail := [NL] + Join(rest, NL);
      assert Join(parts, NL) == parts[0] + [NL] + Join(rest, NL);
      if Blank(Join(rest, NL)) {
        forall i | 0 <= i < |rest|
          ensures !Matches(rest[i], key)
        {
          BlankJoin(rest, i);
          TrimBlankIff(rest[i]);
        }
        KeptSize(rest, key);
      } else if Blank(parts[0]) {
        TrimConcat(parts[0] + [NL], Join(rest, NL));
        OneLineAtMost(rest, key);
      } else {
        TrimConcat(parts[0] + [NL], Join(rest, NL));
        TrimmedHasNewline(parts[0], Join(rest, NL));
        NoLineMatches(parts, key);
        KeptSize(parts, key);
      }
    }
  }

  /** Two non-blank lines keep the newline between them when trimmed. */
  lemma TrimmedHasNewline(a: string, b: string)
    requires !Blank(a) && !Blank(b)
    ensures NL in TrimSpace(a + [NL] + b)
  {
    assert !Blank(a + [NL]) by {
      var i :| 0 <= i < |a| && !IsSpace(a[i]);
      assert (a + [NL])[i] == a[i];
    }
    TrimConcat(a + [NL], b);
    TrimLeftConcat(a, [NL]);
    assert (TrimLeft(a) + [NL])[|TrimLeft(a)|] == NL;
  }

  lemma NoLineMatches(parts: seq<string>, key: string)
    requires NL in TrimSpace(key) && forall i :: 0 <= i < |parts| ==> NL !in parts[i]
    ensures !LineExists(parts, key)
  {
    forall i | 0 <= i < |parts|
      ensures !Matches(parts[i], key)
    {
      TrimKeepsOut(parts[i]);
    }
  }

  lemma {:induction false} TrimKeepsOut(s: string)
    requires NL !in s
    ensures NL !in TrimSpace(s)
  {
    TrimLeftOut(s);
    TrimRightOut(TrimLeft(s));
  }

  lemma {:induction false} TrimLeftOut(s: string)
    requires NL !in s
    ensures NL !in TrimLeft(s)
  {
    if s != "" && IsSpace(s[0]) {
      TrimLeftOut(s[1..]);
    }
  }

  lemma {:induction false} TrimRightOut(s: string)
    requires NL !in s
    ensures NL !in TrimRight(s)
  {
    if s != "" && IsSpace(s[|s| - 1]) {
      TrimRightOut(s[..|s| - 1]);
    }
  }

  /** On a newline-terminated file, removing a key undoes adding it exactly when
      the key was absent and carries no newline. */
  lemma RemoveUndoesAddIff(text: string, key: string)
    requires Terminated(text) && !Blank(key)
    ensures RemoveText(AddText(text, key), key) == text <==> !Exists(text, key) && NL !in key
  {
    if Exists(text, key) {
      RemoveMakesGone(text, key);
    } else if NL in key {
      NewlineLeavesLines(text, key);
    } else {
      OneLineIsUndone(text, key);
    }
  }

  lemma OneLineIsUndone(text: string, key: string)
    requires Terminated(text) && !Blank(key) && !Exists(text, key) && NL !in key
    ensures RemoveText(text + key + [NL], key) == text
  {
    UndoLines(text, key);
    AddLines(text, key);
    JoinSplit(text, NL);
    assert Kept(Split(text + key + [NL], NL), key) == Split(text, NL);
  }

  lemma NewlineLeavesLines(text: string, key: string)
    requires Terminated(text) && !Blank(key) && !Exists(text, key) && NL in key
    ensures RemoveText(text + key + [NL], key) != text
  {
    UndoLines(text, key);
    RemoveLines(text + key + [NL], key);
    KeptCount(text, key);
    assert |Split(RemoveText(text + key + [NL], key), NL)| > |Split(text, NL)|;
  }

  lemma RemoveMakesGone(text: string, key: string)
    requires !Blank(key)
    ensures !Exists(RemoveText(text, key), key)
  {
    RemoveLines(text, key);
    KeptLines(Split(text, NL), key, key);
    TrimBlankIff(key);
    OneLineExists("", key);
  }

  /** What is left of an added key after the removal. */
  lemma UndoLines(text: string, key: string)
    requires Terminated(text) && !Blank(key) && !Exists(text, key)
    ensures Kept(Split(text + key + [NL], NL), key) == Init(text) + Kept(Split(key, NL), key) + [""]
    ensures Split(text, NL) == Init(text) + [""]
    ensures NL !in key ==> Kept(Split(key, NL), key) == []
  {
    AddLines(text, key);
    TerminatedIff(text);
    TrimBlankIff(key);
    ExistsAppend(Init(text), [""], key);
    KeptSize(Init(text), key);
    KeptAppend(Init(text) + Split(key, NL), [""], key);
    KeptAppend(Init(text), Split(key, NL), key);
    KeptOne("", key);
    if NL !in key {
      SplitClean(key, NL);
      KeptOne(key, key);
    }
  }

  /** Of a key with a newline at least one line stays behind. */
  lemma KeptCount(text: string, key: string)
    requires !Blank(key) && NL in key
    ensures |Kept(Split(key, NL), key)| >= 1
  {
    var parts := Split(key, NL);
    JoinSplit(key, NL);
    forall i | 0 <= i < |parts|
      ensures NL !in parts[i]
    {
      PiecesAreClean(key, NL, i);
    }
    OneLineAtMost(parts, key);
    assert |parts| >= 2;
  }
}
