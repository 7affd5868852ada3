/** What an editor may do to a persistence file: blanks, comments, empty lines and
    the line ending do not change what is read. */
module Formatting {
  import opened Options
  import opened Persistence
  import opened TextLines

  /** One line as it stands in a file: blanks before every token and at the end, a
      comment, and the characters that end the line. */
  datatype Styled = Styled(line: Line, gaps: seq<string>, trail: string, comment: string, newline: string) {
    ghost predicate Valid() {
      && |gaps| == |line| <= MAX_TOKENS && (forall i :: 0 <= i < |line| ==> Clean(line[i]))
      && (forall i :: 0 <= i < |gaps| ==> Blanks(gaps[i]) && (i > 0 ==> gaps[i] != ""))
      && Blanks(trail) && Comment(comment) && (newline == "\n" || newline == "\r\n")
      && |Body(line, gaps, trail + comment)| + 2 <= MAX_LINE
    }
  }

  ghost predicate Blanks(s: string) {
    forall i :: 0 <= i < |s| ==> s[i] == ' ' || s[i] == '\t' || s[i] == '\U{0B}' || s[i] == '\U{0C}'
  }

  ghost predicate OneLine(s: string) {
    forall i :: 0 <= i < |s| ==> s[i] != '\n' && s[i] != '\r'
  }

  ghost predicate Comment(s: string) {
    OneLine(s) && (s == "" || s[0] == '#')
  }

  function Body(line: Line, gaps: seq<string>, end: string): string
    requires |line| == |gaps|
  {
    if line == [] then end else gaps[0] + line[0] + Body(line[1..], gaps[1..], end)
  }

  /** The file. */
  ghost function Typeset(items: seq<Styled>): string
    requires forall i :: 0 <= i < |items| ==> items[i].Valid()
  {
    if items == [] then
      ""
    else
      var item := items[0];
      assert item.Valid();
      Body(item.line, item.gaps, item.trail + item.comment) + item.newline + Typeset(items[1..])
  }

  /** What it says. */
  function Content(items: seq<Styled>): seq<Line> {
    if items == [] then []
    else if items[0].line == [] then Content(items[1..])
    else [items[0].line] + Content(items[1..])
  }

  // ---------- one line ----------

  lemma {:induction false} SkipBlanks(gap: string, tail: string)
    requires Blanks(gap)
    ensures SkipSpaces(gap + tail) == SkipSpaces(tail)
    decreases |gap|
  {
    if gap == "" {
      assert gap + tail == tail;
    } else {
      assert (gap + tail)[1..] == gap[1..] + tail;
      SkipBlanks(gap[1..], tail);
    }
  }

  lemma BlanksBefore(gap: string, tail: string, room: nat)
    requires Blanks(gap)
    ensures Tokens(gap + tail, room) == Tokens(tail, room)
  {
    SkipBlanks(gap, tail);
    hide SkipSpaces, TokenSize, Blanks;
  }

  lemma NothingLeft(trail: string, comment: string, room: nat)
    requires Blanks(trail) && Comment(comment)
    ensures Tokens(trail + comment, room) == Some([])
  {
    SkipBlanks(trail, comment);
    hide TokenSize, Blanks;
  }

  /** One token in front of a blank, a comment or the end. */
  lemma TokenBefore(token: string, tail: string, room: nat)
    requires Clean(token) && room > 0
    requires tail == "" || tail[0] == '#' || Blanks([tail[0]])
    ensures Tokens(token + tail, room)
         == if tail == "" || tail[0] == '#' then Some([token])
            else match Tokens(tail[1..], room - 1)
                 case None => None
                 case Some(others) => Some([token] + others)
  {
    var s := token + tail;
    assert tail != "" && tail[0] != '#' ==> Space(tail[0]) by {
      if tail != "" && tail[0] != '#' {
        assert Blanks([tail[0]]) && [tail[0]][0] == tail[0];
      }
    }
    CleanTokenSize(token, tail);
    assert s[0] == token[0] && SkipSpaces(s) == s;
    assert s[..|token|] == token && s[|token|..] == tail;
    if tail != "" {
      assert s[|token| + 1..] == tail[1..];
    }
    hide TokenSize, SkipSpaces, Blanks;
  }

  lemma {:induction false} BodyTokens(line: Line, gaps: seq<string>, trail: string, comment: string, room: nat)
    requires |gaps| == |line| <= room && forall i :: 0 <= i < |line| ==> Clean(line[i])
    requires forall i :: 0 <= i < |gaps| ==> Blanks(gaps[i]) && (i > 0 ==> gaps[i] != "")
    requires Blanks(trail) && Comment(comment)
    ensures Tokens(Body(line, gaps, trail + comment), room) == Some(line)
    decreases |line|
  {
    hide Tokens, Clean;
    var end := trail + comment;
    if line == [] {
      NothingLeft(trail, comment, room);
    } else {
      var rest := Body(line[1..], gaps[1..], end);
      assert Body(line, gaps, end) == gaps[0] + (line[0] + rest);
      BlanksBefore(gaps[0], line[0] + rest, room);
      if |line| > 1 {
        var others := [gaps[1][1..]] + gaps[2..];
        assert rest[0] == gaps[1][0] && Blanks([rest[0]]);
        TokenBefore(line[0], rest, room);
        assert rest[1..] == Body(line[1..], others, end) by {
          assert gaps[1..][1..] == others[1..];
          assert (gaps[1] + line[1] + Body(line[2..], gaps[2..], end))[1..]
              == gaps[1][1..] + line[1] + Body(line[2..], gaps[2..], end);
        }
        BodyTokens(line[1..], others, trail, comment, room - 1);
        assert line == [line[0]] + line[1..];
      } else {
        assert rest == end && line == [line[0]];
        if trail != "" {
          assert rest[0] == trail[0] && Blanks([rest[0]]) && rest[1..] == trail[1..] + comment;
          NothingLeft(trail[1..], comment, room - 1);
          assert [line[0]] + [] == line;
        } else {
          assert rest == comment;
        }
        TokenBefore(line[0], rest, room);
      }
    }
  }

  lemma {:induction false} BodyIsOneLine(line: Line, gaps: seq<string>, end: string)
    requires |gaps| == |line| && forall i :: 0 <= i < |line| ==> Clean(line[i]) && Blanks(gaps[i])
    requires OneLine(end)
    ensures OneLine(Body(line, gaps, end))
    decreases |line|
  {
    if line != [] {
      BodyIsOneLine(line[1..], gaps[1..], end);
      assert OneLine(gaps[0]) by {
        assert Blanks(gaps[0]);
      }
      assert OneLine(line[0]) by {
        assert Clean(line[0]) && forall i :: 0 <= i < |line[0]| ==> !Space(line[0][i]);
      }
      hide Clean, Blanks;
    }
  }

  lemma StripEnding(s: string, newline: string)
    requires OneLine(s)
    requires newline == "\n" || newline == "\r\n"
    ensures Strip(s + newline) == s
  {
    assert Strip(s) == s;
    if newline == "\n" {
      assert (s + newline)[..|s|] == s;
    } else {
      assert (s + newline)[..|s| + 1] == s + "\r" && (s + "\r")[..|s|] == s;
      assert Strip(s + "\r") == s;
    }
  }

  lemma RawStyled(s: string, newline: string, rest: string)
    requires OneLine(s)
    requires newline == "\n" || newline == "\r\n"
    ensures RawLine(s + newline + rest) == (s + newline, rest)
  {
    if newline == "\n" {
      RawJoined(s, rest);
    } else {
      RawJoined(s + "\r", rest);
      assert s + "\r" + "\n" == s + newline;
    }
  }

  /** The line that the reader finds at the front of a file. */
  lemma NextStyled(item: Styled, rest: string)
    requires item.Valid()
    ensures var text := Body(item.line, item.gaps, item.trail + item.comment) + item.newline + rest;
            Next(text) == if item.line == [] then Next(rest) else Found(item.line, rest)
  {
    var s := Body(item.line, item.gaps, item.trail + item.comment);
    BodyIsOneLine(item.line, item.gaps, item.trail + item.comment);
    BodyTokens(item.line, item.gaps, item.trail, item.comment, MAX_TOKENS);
    RawStyled(s, item.newline, rest);
    StripEnding(s, item.newline);
    hide Tokens, Strip, RawLine, Body, Clean, Blanks, Comment;
  }

  // ---------- the file ----------

  /** However a file is typeset, the reader finds what it says. */
  lemma {:induction false} FormattingIsIrrelevant(items: seq<Styled>)
    requires forall i :: 0 <= i < |items| ==> items[i].Valid()
    ensures Lines(Typeset(items)) == Some(Content(items))
  {
    if items != [] {
      NextStyled(items[0], Typeset(items[1..]));
      FormattingIsIrrelevant(items[1..]);
      hide Body, Next;
    }
  }
}
