/** The string functions of Go's `strings` package that the daemon's text code
    rests on, with their laws. Strings are sequences of Unicode scalar values. */
module Text {

  const NL := '\n'

  /** strings.Split with a one-character separator: never empty. */
  function Split(s: string, sep: char): (parts: seq<string>)
    ensures parts != []
  {
    if s == "" then [""]
    else
      var rest := Split(s[1..], sep);
      if s[0] == sep then [""] + rest else Glue(s[0], rest)
  }

  /** The first piece grows by a character in front. */
  function Glue(c: char, parts: seq<string>): (r: seq<string>)
    requires parts != []
    ensures |r| == |parts| && r[0] == [c] + parts[0] && r[1..] == parts[1..]
  {
    [[c] + parts[0]] + parts[1..]
  }

  lemma GlueAppend(c: char, a: seq<string>, b: seq<string>)
    requires a != []
    ensures Glue(c, a + b) == Glue(c, a) + b
  {
    assert (a + b)[1..] == a[1..] + b;
  }

  /** strings.Join with a one-character separator. */
  function Join(parts: seq<string>, sep: char): string {
    if parts == [] then ""
    else if |parts| == 1 then parts[0]
    else parts[0] + [sep] + Join(parts[1..], sep)
  }

  lemma {:induction false} JoinSplit(s: string, sep: char)
    ensures Join(Split(s, sep), sep) == s
  {
    if s != "" {
      JoinSplit(s[1..], sep);
      var rest := Split(s[1..], sep);
      if s[0] == sep {
        assert Split(s, sep)[1..] == rest;
      }
    }
  }

  /** No piece contains the separator. */
  lemma {:induction false} PiecesAreClean(s: string, sep: char, i: nat)
    requires i < |Split(s, sep)|
    ensures sep !in Split(s, sep)[i]
  {
    if s != "" {
      var rest := Split(s[1..], sep);
      if s[0] == sep {
        if i > 0 { PiecesAreClean(s[1..], sep, i - 1); }
      } else {
        PiecesAreClean(s[1..], sep, i);
      }
    }
  }

  lemma {:induction false} SplitClean(s: string, sep: char)
    requires sep !in s
    ensures Split(s, sep) == [s]
  {
    if s != "" {
      SplitClean(s[1..], sep);
      assert [s[0]] + s[1..] == s;
    }
  }

  lemma {:induction false} SplitConcat(a: string, b: string, sep: char)
    ensures Split(a + [sep] + b, sep) == Split(a, sep) + Split(b, sep)
  {
    var whole := a + [sep] + b;
    if a == "" {
      assert whole[0] == sep && whole[1..] == b;
    } else {
      assert whole[0] == a[0] && whole[1..] == a[1..] + [sep] + b;
      SplitConcat(a[1..], b, sep);
      if a[0] == sep {
        assert [""] + (Split(a[1..], sep) + Split(b, sep)) == ([""] + Split(a[1..], sep)) + Split(b, sep);
      } else {
        GlueAppend(a[0], Split(a[1..], sep), Split(b, sep));
      }
    }
  }

  lemma {:induction false} SplitJoin(parts: seq<string>, sep: char)
    requires parts != [] && forall i :: 0 <= i < |parts| ==> sep !in parts[i]
    ensures Split(Join(parts, sep), sep) == parts
  {
    SplitClean(parts[0], sep);
    if |parts| > 1 {
      SplitJoin(parts[1..], sep);
      SplitConcat(parts[0], Join(parts[1..], sep), sep);
    }
  }

  /** The last piece grows by a character. */
  function GrowLast(parts: seq<string>, c: char): seq<string>
    requires parts != []
  {
    parts[..|parts| - 1] + [parts[|parts| - 1] + [c]]
  }

  lemma GlueGrow(c: char, parts: seq<string>, d: char)
    requires parts != []
    ensures Glue(c, GrowLast(parts, d)) == GrowLast(Glue(c, parts), d)
  {
    if |parts| == 1 {
      assert [c] + (parts[0] + [d]) == ([c] + parts[0]) + [d];
    }
  }

  lemma {:induction false} SplitSnoc(s: string, c: char, sep: char)
    ensures Split(s + [c], sep) ==
            if c == sep then Split(s, sep) + [""] else GrowLast(Split(s, sep), c)
  {
    if s == "" {
      assert s + [c] == [c] && [c][1..] == "" && [c] + "" == [c] == "" + [c];
    } else {
      var rest := Split(s[1..], sep);
      assert (s + [c])[0] == s[0] && (s + [c])[1..] == s[1..] + [c];
      SplitSnoc(s[1..], c, sep);
      if s[0] != sep && c == sep {
        GlueAppend(s[0], rest, [""]);
      } else if s[0] != sep {
        GlueGrow(s[0], rest, c);
      } else if c != sep {
        assert GrowLast([""] + rest, c) == [""] + GrowLast(rest, c);
      }
    }
  }

  /** The last piece is empty for the empty text and after a final separator. */
  lemma LastPieceEmptyIff(s: string, sep: char)
    ensures var parts := Split(s, sep);
            parts[|parts| - 1] == "" <==> s == "" || s[|s| - 1] == sep
  {
    if s != "" {
      var n := |s| - 1;
      SplitSnoc(s[..n], s[n], sep);
      assert s == s[..n] + [s[n]];
    }
  }

  lemma {:induction false} JoinSnoc(parts: seq<string>, last: string, sep: char)
    requires parts != []
    ensures Join(parts + [last], sep) == Join(parts, sep) + [sep] + last
  {
    if |parts| > 1 {
      JoinSnoc(parts[1..], last, sep);
      assert (parts + [last])[1..] == parts[1..] + [last];
    } else {
      assert (parts + [last])[1..] == [last];
    }
  }

  /** Text without separators extends the last piece. */
  lemma {:induction false} SplitExtend(s: string, more: string, sep: char)
    requires sep !in more
    ensures var parts := Split(s, sep);
            Split(s + more, sep) == parts[..|parts| - 1] + [parts[|parts| - 1] + more]
  {
    var parts := Split(s, sep);
    if more == "" {
      assert s + more == s && parts[|parts| - 1] + more == parts[|parts| - 1];
    } else {
      var last := |more| - 1;
      SplitExtend(s, more[..last], sep);
      SplitSnoc(s + more[..last], more[last], sep);
      assert s + more == s + more[..last] + [more[last]];
      assert parts[|parts| - 1] + more[..last] + [more[last]] == parts[|parts| - 1] + more;
    }
  }

  lemma Regroup<T>(x: seq<T>, y: seq<T>, z: seq<T>)
    ensures (x + y) + z == x + (y + z)
  {
  }

  /** All pieces one after the other. */
  function Concat(parts: seq<string>): string {
    if parts == [] then "" else parts[0] + Concat(parts[1..])
  }

  lemma {:induction false} ConcatAppend(a: seq<string>, b: seq<string>)
    ensures Concat(a + b) == Concat(a) + Concat(b)
  {
    if a == [] {
      assert a + b == b;
    } else {
      ConcatAppend(a[1..], b);
      assert (a + b)[1..] == a[1..] + b;
      Regroup(a[0], Concat(a[1..]), Concat(b));
    }
  }

  lemma ConcatOne(part: string)
    ensures Concat([part]) == part
  {
    assert [part][1..] == [];
  }

  lemma ConcatLast(parts: seq<string>)
    requires parts != []
    ensures Concat(parts) == Concat(parts[..|parts| - 1]) + parts[|parts| - 1]
  {
    var n := |parts| - 1;
    assert parts == parts[..n] + [parts[n]];
    ConcatAppend(parts[..n], [parts[n]]);
    ConcatOne(parts[n]);
  }

  /** The text without any occurrence of the separator. */
  function Without(s: string, sep: char): string {
    if s == "" then ""
    else (if s[0] == sep then "" else [s[0]]) + Without(s[1..], sep)
  }

  lemma {:induction false} WithoutAppend(a: string, b: string, sep: char)
    ensures Without(a + b, sep) == Without(a, sep) + Without(b, sep)
  {
    if a == "" {
      assert a + b == b;
    } else {
      WithoutAppend(a[1..], b, sep);
      assert (a + b)[1..] == a[1..] + b && (a + b)[0] == a[0];
      Regroup(if a[0] == sep then "" else [a[0]], Without(a[1..], sep), Without(b, sep));
    }
  }

  lemma {:induction false} ConcatSplit(s: string, sep: char)
    ensures Concat(Split(s, sep)) == Without(s, sep)
  {
    if s != "" {
      ConcatSplit(s[1..], sep);
      var rest := Split(s[1..], sep);
      if s[0] == sep {
        assert Split(s, sep)[1..] == rest;
      }
    }
  }

  /** The first piece of a text. */
  lemma FirstPieceIff(s: string, piece: string, sep: char)
    requires sep !in piece
    ensures Split(s, sep)[0] == piece <==> s == piece || HasPrefix(s, piece + [sep])
  {
    SplitClean(piece, sep);
    FirstPieceLeads(s, sep);
    if HasPrefix(s, piece + [sep]) {
      assert s == piece + [sep] + s[|piece| + 1..];
      SplitConcat(piece, s[|piece| + 1..], sep);
    }
  }

  lemma FirstPieceLeads(s: string, sep: char)
    ensures s == Split(s, sep)[0] || HasPrefix(s, Split(s, sep)[0] + [sep])
  {
    var parts := Split(s, sep);
    JoinSplit(s, sep);
    if |parts| > 1 {
      assert s == (parts[0] + [sep]) + Join(parts[1..], sep);
    }
  }

  // Trimming

  /** unicode.IsSpace. */
  predicate IsSpace(c: char) {
    c == ' ' || '\t' <= c <= '\r' || c == '\U{0085}' || c == '\U{00A0}' || c == '\U{1680}' ||
    '\U{2000}' <= c <= '\U{200A}' || c == '\U{2028}' || c == '\U{2029}' || c == '\U{202F}' ||
    c == '\U{205F}' || c == '\U{3000}'
  }

  function TrimLeft(s: string): string {
    if s != "" && IsSpace(s[0]) then TrimLeft(s[1..]) else s
  }

  function TrimRight(s: string): string {
    if s != "" && IsSpace(s[|s| - 1]) then TrimRight(s[..|s| - 1]) else s
  }

  /** strings.TrimSpace. */
  function TrimSpace(s: string): string {
    TrimRight(TrimLeft(s))
  }

  predicate Blank(s: string) {
    forall i :: 0 <= i < |s| ==> IsSpace(s[i])
  }

  predicate HasPrefix(s: string, prefix: string) {
    |prefix| <= |s| && s[..|prefix|] == prefix
  }
}
