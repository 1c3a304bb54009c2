/** SaveSession: the two credential lines of the configuration file are replaced
    or appended, every other line stays. */
module Session {
  import opened Text
  import opened Scalars

  const AGENT_KEY := "agent_id"
  const TOKEN_KEY := "session_token"

  /** What ReadFile returned: the text, or an error. */
  datatype File = Unreadable | Contents(text: string)

  datatype Credentials = Credentials(agent: string, token: string)

  /** flatKeyOf: the key of a top-level "key: value" line, else "". */
  function FlatKeyOf(line: string): string {
    var trimmed := TrimSpace(line);
    if trimmed == "" || HasPrefix(trimmed, "#") then ""
    else if line[0] == ' ' || line[0] == '\t' then ""
    else
      var parts := Split(trimmed, ':');
      if |parts| < 2 then "" else TrimSpace(parts[0])
  }

  function KeyLine(key: string, value: string, printable: char -> bool): string {
    key + ": " + YamlScalar(value, printable)
  }

  function RewriteLine(line: string, c: Credentials, printable: char -> bool): string {
    var key := FlatKeyOf(line);
    if key == AGENT_KEY then KeyLine(AGENT_KEY, c.agent, printable)
    else if key == TOKEN_KEY then KeyLine(TOKEN_KEY, c.token, printable)
    else line
  }

  /** Does some line carry the flat key? */
  predicate Seen(lines: seq<string>, key: string) {
    lines != [] && (Seen(lines[..|lines| - 1], key) || FlatKeyOf(lines[|lines| - 1]) == key)
  }

  function Rewritten(lines: seq<string>, c: Credentials, printable: char -> bool): (r: seq<string>)
    ensures |r| == |lines|
  {
    if lines == [] then []
    else Rewritten(lines[..|lines| - 1], c, printable) + [RewriteLine(lines[|lines| - 1], c, printable)]
  }

  /** The keys the file lacks are appended. */
  function Appended(agentSeen: bool, tokenSeen: bool, c: Credentials, printable: char -> bool): seq<string> {
    (if agentSeen then [] else [KeyLine(AGENT_KEY, c.agent, printable)])
    + (if tokenSeen then [] else [KeyLine(TOKEN_KEY, c.token, printable)])
  }

  /** The lines SaveSession joins. */
  function SavedLines(lines: seq<string>, c: Credentials, printable: char -> bool): seq<string> {
    Rewritten(lines, c, printable) + Appended(Seen(lines, AGENT_KEY), Seen(lines, TOKEN_KEY), c, printable)
  }

  lemma OneMoreLine(lines: seq<string>, i: nat, c: Credentials, printable: char -> bool, key: string)
    requires i < |lines|
    ensures Rewritten(lines[..i + 1], c, printable) ==
            Rewritten(lines[..i], c, printable) + [RewriteLine(lines[i], c, printable)]
    ensures Seen(lines[..i + 1], key) <==> Seen(lines[..i], key) || FlatKeyOf(lines[i]) == key
  {
    assert lines[..i + 1][..i] == lines[..i] && lines[..i + 1][i] == lines[i];
  }

  /** The loop of SaveSession. */
  method RewriteLines(lines: seq<string>, c: Credentials, printable: char -> bool) returns (out: seq<string>)
    ensures out == SavedLines(lines, c, printable)
  {
    var seenAgent, seenSession := false, false;
    out := [];
    var i := 0;
    while i < |lines|
      invariant 0 <= i <= |lines|
      invariant out == Rewritten(lines[..i], c, printable)
      invariant seenAgent == Seen(lines[..i], AGENT_KEY) && seenSession == Seen(lines[..i], TOKEN_KEY)
    {
      OneMoreLine(lines, i, c, printable, AGENT_KEY);
      OneMoreLine(lines, i, c, printable, TOKEN_KEY);
      var key := FlatKeyOf(lines[i]);
      if key == AGENT_KEY {
        out := out + [KeyLine(AGENT_KEY, c.agent, printable)];
        seenAgent := true;
      } else if key == TOKEN_KEY {
        out := out + [KeyLine(TOKEN_KEY, c.token, printable)];
        seenSession := true;
      } else {
        out := out + [lines[i]];
      }
      i := i + 1;
    }
    assert lines[..|lines|] == lines;
    ghost var rewritten := out;
    if !seenAgent {
      out := out + [KeyLine(AGENT_KEY, c.agent, printable)];
    }
    if !seenSession {
      out := out + [KeyLine(TOKEN_KEY, c.token, printable)];
    }
    assert out == rewritten + Appended(seenAgent, seenSession, c, printable);
  }

  function FileLines(file: File): seq<string> {
    if file.Unreadable? then [] else Split(file.text, NL)
  }

  /** The text written: joined, with a final newline if there is none. */
  function SavedText(file: File, c: Credentials, printable: char -> bool): string {
    var content := Join(SavedLines(FileLines(file), c, printable), NL);
    if content != "" && content[|content| - 1] == NL then content else content + [NL]
  }

  datatype Result = Written(text: string) | Rejected

  /** SaveSession up to the atomic replacement of the file. */
  method SaveSession(path: string, file: File, c: Credentials, printable: char -> bool) returns (r: Result)
    ensures r == if path == "" || c.agent == "" || c.token == "" then Rejected
                 else Written(SavedText(file, c, printable))
  {
    if path == "" {
      return Rejected;
    }
    if c.agent == "" || c.token == "" {
      return Rejected;
    }
    var lines := [];
    if file.Contents? {
      lines := Split(file.text, NL);
    }
    var out := RewriteLines(lines, c, printable);
    var content := Join(out, NL);
    if content == "" || content[|content| - 1] != NL {
      content := content + [NL];
    }
    return Written(content);
  }

  // Keys read back

  /** The shape of a credential key. */
  predicate KeyShape(key: string) {
    && key != "" && key[0] != '#' && !IsSpace(key[0]) && !IsSpace(key[|key| - 1])
    && ':' !in key && NL !in key
  }

  lemma {:induction false} TrimRightKeeps(p: string, rest: string)
    requires p != "" && !IsSpace(p[|p| - 1])
    ensures HasPrefix(TrimRight(p + rest), p)
  {
    if rest == "" {
      assert p + rest == p;
    } else {
      assert (p + rest)[..|p + rest| - 1] == p + rest[..|rest| - 1];
      TrimRightKeeps(p, rest[..|rest| - 1]);
    }
  }

  lemma KeyOfKeyLine(key: string, text: string)
    requires KeyShape(key)
    ensures FlatKeyOf(key + ": " + text) == key
  {
    var line := key + ": " + text;
    assert line == (key + [':']) + (" " + text);
    assert line[0] == key[0] && TrimLeft(line) == line;
    TrimRightKeeps(key + [':'], " " + text);
    var trimmed := TrimSpace(line);
    assert HasPrefix(trimmed, key + [':']) && trimmed[0] == key[0];
    FirstPieceIff(trimmed, key, ':');
    JoinSplit(trimmed, ':');
    assert TrimSpace(key) == key;
  }

  lemma KeysHaveShape()
    ensures KeyShape(AGENT_KEY) && KeyShape(TOKEN_KEY) && AGENT_KEY != TOKEN_KEY && AGENT_KEY != "" && TOKEN_KEY != ""
  {
    assert AGENT_KEY[0] == 'a' && TOKEN_KEY[0] == 's';
  }

  lemma RewriteLineTwice(line: string, c: Credentials, d: Credentials, printable: char -> bool)
    ensures RewriteLine(RewriteLine(line, c, printable), d, printable) == RewriteLine(line, d, printable)
    ensures FlatKeyOf(RewriteLine(line, c, printable)) == FlatKeyOf(line)
    ensures RewriteLine(line, c, printable) == "" <==> line == ""
  {
    KeysHaveShape();
    KeyOfKeyLine(AGENT_KEY, YamlScalar(c.agent, printable));
    KeyOfKeyLine(TOKEN_KEY, YamlScalar(c.token, printable));
    EmptyLine();
  }

  lemma EmptyLine()
    ensures FlatKeyOf("") == ""
  {}

  // Lists of lines

  lemma {:induction false} LinesAppend(a: seq<string>, b: seq<string>, c: Credentials, key: string,
                                       printable: char -> bool)
    ensures Rewritten(a + b, c, printable) == Rewritten(a, c, printable) + Rewritten(b, c, printable)
    ensures Seen(a + b, key) <==> Seen(a, key) || Seen(b, key)
  {
    if b == [] {
      assert a + b == a;
    } else {
      var last := |b| - 1;
      assert (a + b)[..|a + b| - 1] == a + b[..last] && (a + b)[|a + b| - 1] == b[last];
      LinesAppend(a, b[..last], c, key, printable);
    }
  }

  lemma OneLine(line: string, c: Credentials, key: string, printable: char -> bool)
    ensures Rewritten([line], c, printable) == [RewriteLine(line, c, printable)]
    ensures Seen([line], key) <==> FlatKeyOf(line) == key
  {
    assert [line][..0] == [];
  }

  lemma {:induction false} RewrittenTwice(lines: seq<string>, c: Credentials, d: Credentials, key: string,
                                          printable: char -> bool)
    ensures Rewritten(Rewritten(lines, c, printable), d, printable) == Rewritten(lines, d, printable)
    ensures Seen(Rewritten(lines, c, printable), key) <==> Seen(lines, key)
  {
    if lines != [] {
      var last := |lines| - 1;
      RewrittenTwice(lines[..last], c, d, key, printable);
      RewriteLineTwice(lines[last], c, d, printable);
      assert Rewritten(lines, c, printable)[..last] == Rewritten(lines[..last], c, printable);
    }
  }

  lemma AppendedTwice(agentSeen: bool, tokenSeen: bool, c: Credentials, d: Credentials, printable: char -> bool)
    ensures var more := Appended(agentSeen, tokenSeen, c, printable);
            && Rewritten(more, d, printable) == Appended(agentSeen, tokenSeen, d, printable)
            && (Seen(more, AGENT_KEY) <==> !agentSeen) && (Seen(more, TOKEN_KEY) <==> !tokenSeen)
  {
    var x, y := KeyLine(AGENT_KEY, c.agent, printable), KeyLine(TOKEN_KEY, c.token, printable);
    KeysHaveShape();
    KeyOfKeyLine(AGENT_KEY, YamlScalar(c.agent, printable));
    KeyOfKeyLine(TOKEN_KEY, YamlScalar(c.token, printable));
    var p := if agentSeen then [] else [x];
    var q := if tokenSeen then [] else [y];
    LinesAppend(p, q, d, AGENT_KEY, printable);
    LinesAppend(p, q, d, TOKEN_KEY, printable);
    OneLine(x, d, AGENT_KEY, printable);
    OneLine(x, d, TOKEN_KEY, printable);
    OneLine(y, d, AGENT_KEY, printable);
    OneLine(y, d, TOKEN_KEY, printable);
  }

  /** After a save both keys are there, and saving the lines again with other
      credentials is the same as having saved those in the first place. */
  lemma SavedLinesTwice(lines: seq<string>, c: Credentials, d: Credentials, printable: char -> bool)
    ensures var saved := SavedLines(lines, c, printable);
            && Seen(saved, AGENT_KEY) && Seen(saved, TOKEN_KEY)
            && Rewritten(saved, d, printable) == SavedLines(lines, d, printable)
  {
    var agentSeen, tokenSeen := Seen(lines, AGENT_KEY), Seen(lines, TOKEN_KEY);
    var more := Appended(agentSeen, tokenSeen, c, printable);
    RewrittenTwice(lines, c, d, AGENT_KEY, printable);
    RewrittenTwice(lines, c, d, TOKEN_KEY, printable);
    AppendedTwice(agentSeen, tokenSeen, c, d, printable);
    LinesAppend(Rewritten(lines, c, printable), more, d, AGENT_KEY, printable);
    LinesAppend(Rewritten(lines, c, printable), more, d, TOKEN_KEY, printable);
  }

  /** With both keys present nothing is appended. */
  lemma NothingAppended(lines: seq<string>, d: Credentials, printable: char -> bool)
    requires Seen(lines, AGENT_KEY) && Seen(lines, TOKEN_KEY)
    ensures SavedLines(lines, d, printable) == Rewritten(lines, d, printable)
  {}

  // Lines and text

  /** A final empty line stands for a final newline; it is added if missing. */
  function Closed(lines: seq<string>): seq<string> {
    if lines != [] && lines[|lines| - 1] == "" then lines else lines + [""]
  }

  ghost predicate Clean(lines: seq<string>) {
    forall i :: 0 <= i < |lines| ==> NL !in lines[i]
  }

  lemma ClosedSplits(lines: seq<string>)
    requires Clean(lines)
    ensures Split(Join(Closed(lines), NL), NL) == Closed(lines)
  {
    SplitJoin(Closed(lines), NL);
  }

  /** Adding the final newline to the text is closing the list of lines. */
  lemma ClosingText(lines: seq<string>)
    requires Clean(lines) && lines != [] && lines != [""]
    ensures var content := Join(lines, NL);
            (if content != "" && content[|content| - 1] == NL then content else content + [NL])
            == Join(Closed(lines), NL)
  {
    if lines[|lines| - 1] == "" {
      EndsInNewline(lines);
    } else {
      JoinSnoc(lines, "", NL);
      EndsInText(lines);
    }
  }

  lemma EndsInNewline(lines: seq<string>)
    requires |lines| > 1 && lines[|lines| - 1] == ""
    ensures Join(lines, NL) != "" && Join(lines, NL)[|Join(lines, NL)| - 1] == NL
  {
    var front := lines[..|lines| - 1];
    assert lines == front + [""];
    JoinSnoc(front, "", NL);
  }

  lemma EndsInText(lines: seq<string>)
    requires lines != [] && lines[|lines| - 1] != "" && NL !in lines[|lines| - 1]
    ensures Join(lines, NL) != "" && Join(lines, NL)[|Join(lines, NL)| - 1] != NL
  {
    var front, last := lines[..|lines| - 1], lines[|lines| - 1];
    if front != [] {
      assert lines == front + [last];
      JoinSnoc(front, last, NL);
      assert (Join(front, NL) + [NL] + last)[|Join(front, NL)| + |last|] == last[|last| - 1];
    }
  }

  lemma RewrittenLineClean(line: string, c: Credentials, printable: char -> bool)
    requires NL !in line
    ensures NL !in RewriteLine(line, c, printable)
    ensures NL !in KeyLine(AGENT_KEY, c.agent, printable) && NL !in KeyLine(TOKEN_KEY, c.token, printable)
  {
    ScalarRoundTrip(c.agent, printable);
    ScalarRoundTrip(c.token, printable);
    KeysHaveShape();
  }

  lemma {:induction false} RewrittenClean(lines: seq<string>, c: Credentials, printable: char -> bool)
    requires Clean(lines)
    ensures Clean(Rewritten(lines, c, printable))
  {
    if lines != [] {
      RewrittenClean(lines[..|lines| - 1], c, printable);
      RewrittenLineClean(lines[|lines| - 1], c, printable);
    }
  }

  lemma LinesClean(file: File)
    ensures Clean(FileLines(file))
  {
    if file.Contents? {
      forall i | 0 <= i < |FileLines(file)|
        ensures NL !in FileLines(file)[i]
      {
        PiecesAreClean(file.text, NL, i);
      }
    }
  }

  lemma SavedClean(file: File, c: Credentials, printable: char -> bool)
    ensures Clean(SavedLines(FileLines(file), c, printable))
  {
    LinesClean(file);
    RewrittenClean(FileLines(file), c, printable);
    RewrittenLineClean("", c, printable);
  }

  /** A saved file is never just an empty line: both keys are there. */
  lemma SavedNotBlank(lines: seq<string>, c: Credentials, printable: char -> bool)
    ensures SavedLines(lines, c, printable) != [] && SavedLines(lines, c, printable) != [""]
  {
    SavedLinesTwice(lines, c, c, printable);
    KeysHaveShape();
    OneLine("", c, AGENT_KEY, printable);
    EmptyLine();
  }

  /** The saved text, read back line by line. */
  lemma SavedTextLines(file: File, c: Credentials, printable: char -> bool)
    ensures SavedText(file, c, printable) == Join(Closed(SavedLines(FileLines(file), c, printable)), NL)
    ensures Split(SavedText(file, c, printable), NL) == Closed(SavedLines(FileLines(file), c, printable))
  {
    SavedClean(file, c, printable);
    SavedNotBlank(FileLines(file), c, printable);
    ClosingText(SavedLines(FileLines(file), c, printable));
    ClosedSplits(SavedLines(FileLines(file), c, printable));
  }

  /** Closing commutes with rewriting: an empty line is never touched. */
  lemma ClosedRewritten(lines: seq<string>, d: Credentials, key: string, printable: char -> bool)
    requires lines != [] && key != ""
    ensures Rewritten(Closed(lines), d, printable) == Closed(Rewritten(lines, d, printable))
    ensures Seen(Closed(lines), key) <==> Seen(lines, key)
  {
    var last := |lines| - 1;
    RewriteLineTwice(lines[last], d, d, printable);
    EmptyLine();
    KeysHaveShape();
    LinesAppend(lines, [""], d, key, printable);
    OneLine("", d, key, printable);
    assert Rewritten(lines, d, printable)[last] == RewriteLine(lines[last], d, printable);
  }

  lemma ClosedTwice(lines: seq<string>)
    ensures Closed(Closed(lines)) == Closed(lines)
  {}

  // Laws

  /** A second save fully overwrites the first. */
  lemma SecondSaveWins(file: File, c: Credentials, d: Credentials, printable: char -> bool)
    ensures SavedText(Contents(SavedText(file, c, printable)), d, printable) == SavedText(file, d, printable)
  {
    var first := SavedLines(FileLines(file), c, printable);
    SavedTextLines(file, c, printable);
    SavedTextLines(file, d, printable);
    SavedTextLines(Contents(SavedText(file, c, printable)), d, printable);
    SavedNotBlank(FileLines(file), c, printable);
    SavedLinesTwice(FileLines(file), c, d, printable);
    KeysHaveShape();
    ClosedRewritten(first, d, AGENT_KEY, printable);
    ClosedRewritten(first, d, TOKEN_KEY, printable);
    NothingAppended(Closed(first), d, printable);
    ClosedTwice(SavedLines(FileLines(file), d, printable));
  }

  /** So saving the same credentials again changes nothing. */
  lemma SavingIsIdempotent(file: File, c: Credentials, printable: char -> bool)
    ensures SavedText(Contents(SavedText(file, c, printable)), c, printable) == SavedText(file, c, printable)
  {
    SecondSaveWins(file, c, c, printable);
  }

  lemma {:induction false} RewrittenAt(lines: seq<string>, c: Credentials, printable: char -> bool, i: nat)
    requires i < |lines|
    ensures Rewritten(lines, c, printable)[i] == RewriteLine(lines[i], c, printable)
  {
    if i < |lines| - 1 {
      RewrittenAt(lines[..|lines| - 1], c, printable, i);
    }
  }

  /** The text after "key: " in a line. */
  function ValueText(line: string, key: string): string {
    if |line| >= |key| + 2 then line[|key| + 2..] else ""
  }

  lemma ValueReadsBack(key: string, value: string, printable: char -> bool)
    ensures ScalarValue(ValueText(KeyLine(key, value, printable), key)) == value
  {
    ScalarRoundTrip(value, printable);
    assert KeyLine(key, value, printable)[|key| + 2..] == YamlScalar(value, printable);
  }

  /** Every flat occurrence of a credential key in the saved text reads back the
      saved value, however many there are, and each key occurs. */
  lemma CredentialsReadBack(file: File, c: Credentials, printable: char -> bool, i: nat)
    requires i < |Split(SavedText(file, c, printable), NL)|
    ensures var lines := Split(SavedText(file, c, printable), NL);
            && (FlatKeyOf(lines[i]) == AGENT_KEY ==> ScalarValue(ValueText(lines[i], AGENT_KEY)) == c.agent)
            && (FlatKeyOf(lines[i]) == TOKEN_KEY ==> ScalarValue(ValueText(lines[i], TOKEN_KEY)) == c.token)
            && Seen(lines, AGENT_KEY) && Seen(lines, TOKEN_KEY)
  {
    var lines := Split(SavedText(file, c, printable), NL);
    SavedFixed(file, c, printable);
    RewrittenAt(lines, c, printable, i);
    ValueReadsBack(AGENT_KEY, c.agent, printable);
    ValueReadsBack(TOKEN_KEY, c.token, printable);
  }

  lemma {:induction false} SeenAt(lines: seq<string>, key: string) returns (i: nat)
    requires Seen(lines, key)
    ensures i < |lines| && FlatKeyOf(lines[i]) == key
  {
    i := |lines| - 1;
    if FlatKeyOf(lines[i]) != key {
      i := SeenAt(lines[..i], key);
    }
  }

  /** Where the saved text has the two credentials: at least one line for each key, with
      the saved value. */
  lemma CredentialsFound(file: File, c: Credentials, printable: char -> bool) returns (agentAt: nat, tokenAt: nat)
    ensures var lines := Split(SavedText(file, c, printable), NL);
            && agentAt < |lines| && FlatKeyOf(lines[agentAt]) == AGENT_KEY
            && ScalarValue(ValueText(lines[agentAt], AGENT_KEY)) == c.agent
            && tokenAt < |lines| && FlatKeyOf(lines[tokenAt]) == TOKEN_KEY
            && ScalarValue(ValueText(lines[tokenAt], TOKEN_KEY)) == c.token
  {
    var lines := Split(SavedText(file, c, printable), NL);
    SavedFixed(file, c, printable);
    agentAt := SeenAt(lines, AGENT_KEY);
    tokenAt := SeenAt(lines, TOKEN_KEY);
    CredentialsReadBack(file, c, printable, agentAt);
    CredentialsReadBack(file, c, printable, tokenAt);
  }

  /** The lines of a saved text are what rewriting makes of them. */
  lemma SavedFixed(file: File, c: Credentials, printable: char -> bool)
    ensures var lines := Split(SavedText(file, c, printable), NL);
            Rewritten(lines, c, printable) == lines && Seen(lines, AGENT_KEY) && Seen(lines, TOKEN_KEY)
  {
    var saved := SavedLines(FileLines(file), c, printable);
    SavedTextLines(file, c, printable);
    SavedNotBlank(FileLines(file), c, printable);
    SavedLinesTwice(FileLines(file), c, c, printable);
    KeysHaveShape();
    ClosedRewritten(saved, c, AGENT_KEY, printable);
    ClosedRewritten(saved, c, TOKEN_KEY, printable);
  }

  /** Saving leaves a text alone exactly when it ends in a newline, has both keys,
      and every flat occurrence of them is already written as the save would. */
  lemma SaveChangesNothingIff(text: string, c: Credentials, printable: char -> bool)
    ensures var lines := Split(text, NL);
            SavedText(Contents(text), c, printable) == text <==>
            lines[|lines| - 1] == "" && Seen(lines, AGENT_KEY) && Seen(lines, TOKEN_KEY)
            && Rewritten(lines, c, printable) == lines
  {
    var lines := Split(text, NL);
    SavedTextLines(Contents(text), c, printable);
    JoinSplit(text, NL);
    if SavedText(Contents(text), c, printable) == text {
      SavedFixed(Contents(text), c, printable);
      assert Closed(SavedLines(lines, c, printable)) == lines;
    } else if lines[|lines| - 1] == "" && Seen(lines, AGENT_KEY) && Seen(lines, TOKEN_KEY) {
      NothingAppended(lines, c, printable);
    }
  }

  // Everything else

  /** The lines that are no credential lines, in order. */
  function Others(lines: seq<string>): seq<string> {
    if lines == [] then []
    else
      var line := lines[|lines| - 1];
      Others(lines[..|lines| - 1]) +
      if FlatKeyOf(line) == AGENT_KEY || FlatKeyOf(line) == TOKEN_KEY then [] else [line]
  }

  lemma {:induction false} OthersAppend(a: seq<string>, b: seq<string>)
    ensures Others(a + b) == Others(a) + Others(b)
  {
    if b == [] {
      assert a + b == a;
    } else {
      var last := |b| - 1;
      assert (a + b)[..|a + b| - 1] == a + b[..last] && (a + b)[|a + b| - 1] == b[last];
      OthersAppend(a, b[..last]);
    }
  }

  lemma {:induction false} OthersRewritten(lines: seq<string>, c: Credentials, printable: char -> bool)
    ensures Others(Rewritten(lines, c, printable)) == Others(lines)
  {
    if lines != [] {
      var last := |lines| - 1;
      OthersRewritten(lines[..last], c, printable);
      RewriteLineTwice(lines[last], c, c, printable);
      assert Rewritten(lines, c, printable)[..last] == Rewritten(lines[..last], c, printable);
    }
  }

  lemma OthersAppended(agentSeen: bool, tokenSeen: bool, c: Credentials, printable: char -> bool)
    ensures Others(Appended(agentSeen, tokenSeen, c, printable)) == []
  {
    var x, y := KeyLine(AGENT_KEY, c.agent, printable), KeyLine(TOKEN_KEY, c.token, printable);
    KeysHaveShape();
    KeyOfKeyLine(AGENT_KEY, YamlScalar(c.agent, printable));
    KeyOfKeyLine(TOKEN_KEY, YamlScalar(c.token, printable));
    var p := if agentSeen then [] else [x];
    var q := if tokenSeen then [] else [y];
    assert [x][..0] == [] && [y][..0] == [];
    OthersAppend(p, q);
  }

  lemma OthersSaved(lines: seq<string>, c: Credentials, printable: char -> bool)
    ensures Others(SavedLines(lines, c, printable)) == Others(lines)
  {
    var more := Appended(Seen(lines, AGENT_KEY), Seen(lines, TOKEN_KEY), c, printable);
    OthersAppend(Rewritten(lines, c, printable), more);
    OthersRewritten(lines, c, printable);
    OthersAppended(Seen(lines, AGENT_KEY), Seen(lines, TOKEN_KEY), c, printable);
  }

  /** Closing a list adds an empty line to the others exactly if there was none at the end. */
  lemma OthersClosedIff(lines: seq<string>)
    requires lines != []
    ensures Others(Closed(lines)) == Others(lines) + if lines[|lines| - 1] == "" then [] else [""]
  {
    KeysHaveShape();
    EmptyLine();
    assert [""][..0] == [];
    OthersAppend(lines, [""]);
  }

  /** The saved list ends in an empty line exactly if the old one did and nothing was
      appended behind it. */
  lemma SavedEndsEmptyIff(lines: seq<string>, c: Credentials, printable: char -> bool)
    ensures var saved := SavedLines(lines, c, printable);
            && saved != []
            && (saved[|saved| - 1] == "" <==>
                lines != [] && lines[|lines| - 1] == "" && Seen(lines, AGENT_KEY) && Seen(lines, TOKEN_KEY))
  {
    SavedNotBlank(lines, c, printable);
    KeysHaveShape();
    var more := Appended(Seen(lines, AGENT_KEY), Seen(lines, TOKEN_KEY), c, printable);
    assert more != [] ==> more[|more| - 1] != "";
    if more == [] {
      NothingAppended(lines, c, printable);
      RewriteLineTwice(lines[|lines| - 1], c, c, printable);
    }
  }

  /** All other lines keep their content and order, with exactly one empty piece more
      behind them unless the old file ended in a newline and had both keys. */
  lemma OtherLinesKept(file: File, c: Credentials, printable: char -> bool)
    ensures var lines, after := FileLines(file), Others(Split(SavedText(file, c, printable), NL));
            && after == Others(lines) +
               (if lines != [] && lines[|lines| - 1] == "" && Seen(lines, AGENT_KEY) && Seen(lines, TOKEN_KEY) then []
                else [""])
  {
    SavedTextLines(file, c, printable);
    OthersSaved(FileLines(file), c, printable);
    SavedEndsEmptyIff(FileLines(file), c, printable);
    OthersClosedIff(SavedLines(FileLines(file), c, printable));
  }

  /** The other lines are exactly as before if and only if the file ended in a newline
      and had both keys. */
  lemma OtherLinesUnchangedIff(file: File, c: Credentials, printable: char -> bool)
    ensures Others(Split(SavedText(file, c, printable), NL)) == Others(FileLines(file)) <==>
            file.Contents? && file.text != "" && file.text[|file.text| - 1] == NL
            && Seen(FileLines(file), AGENT_KEY) && Seen(FileLines(file), TOKEN_KEY)
  {
    OtherLinesKept(file, c, printable);
    var others := Others(FileLines(file));
    assert others != others + [""];
    if file.Contents? {
      LastPieceEmptyIff(file.text, NL);
      if file.text == "" {
        NoKeysInEmpty();
      }
    }
  }

  lemma NoKeysInEmpty()
    ensures !Seen(Split("", NL), AGENT_KEY)
  {
    KeysHaveShape();
    EmptyLine();
    assert Split("", NL) == [""] && [""][..0] == [];
  }

  lemma {:induction false} NothingRewritten(lines: seq<string>, c: Credentials, printable: char -> bool)
    requires !Seen(lines, AGENT_KEY) && !Seen(lines, TOKEN_KEY)
    ensures Rewritten(lines, c, printable) == lines
  {
    if lines != [] {
      NothingRewritten(lines[..|lines| - 1], c, printable);
      assert lines == lines[..|lines| - 1] + [lines[|lines| - 1]];
    }
  }

  /** What the first registration writes: the old text, a newline, and the two lines. A
      text that already ends in a newline therefore gets an empty line in front of them. */
  lemma FirstSave(text: string, c: Credentials, printable: char -> bool)
    requires !Seen(Split(text, NL), AGENT_KEY) && !Seen(Split(text, NL), TOKEN_KEY)
    ensures SavedText(Contents(text), c, printable) ==
            text + [NL] + KeyLine(AGENT_KEY, c.agent, printable) + [NL] + KeyLine(TOKEN_KEY, c.token, printable) + [NL]
  {
    var lines := Split(text, NL);
    var x, y := KeyLine(AGENT_KEY, c.agent, printable), KeyLine(TOKEN_KEY, c.token, printable);
    NothingRewritten(lines, c, printable);
    assert SavedLines(lines, c, printable) == lines + [x] + [y];
    JoinSplit(text, NL);
    JoinSnoc(lines, x, NL);
    JoinSnoc(lines + [x], y, NL);
    JoinSnoc(lines + [x] + [y], "", NL);
    SavedTextLines(Contents(text), c, printable);
    KeysHaveShape();
    assert Closed(lines + [x] + [y]) == lines + [x] + [y] + [""];
  }
}
