/** The characters of the persistence files: lines, comments, blanks and tokens as
    the reader splits them, and the proof that it finds the lines of every text
    that the savers write. */
module TextLines {
  import opened Options
  import opened Words
  import opened Layers
  import opened Persistence
  import opened Training
  import Schedule

  const MAX_LINE: nat := 65536
  const MAX_TOKENS: nat := 4

  predicate Space(c: char) {
    c == ' ' || c == '\t' || c == '\n' || c == '\U{0B}' || c == '\U{0C}' || c == '\r'
  }

  /** Where the tokens of a line end: its end, a NUL or a comment. */
  predicate Over(s: string) {
    s == "" || s[0] == '\0' || s[0] == '#'
  }

  // ---------- the grammar ----------

  /** The line up to and including its newline, and what follows. */
  function RawLine(text: string): (r: (string, string))
    requires text != ""
    ensures r.0 != "" && text == r.0 + r.1
  {
    if text[0] == '\n' || |text| == 1 then
      ([text[0]], text[1..])
    else
      var (line, rest) := RawLine(text[1..]);
      ([text[0]] + line, rest)
  }

  function Strip(line: string): string {
    if line != "" && (line[|line| - 1] == '\n' || line[|line| - 1] == '\r') then Strip(line[..|line| - 1]) else line
  }

  function SkipSpaces(s: string): (rest: string)
    ensures |rest| <= |s|
  {
    if s != "" && Space(s[0]) then SkipSpaces(s[1..]) else s
  }

  /** The length of the token at the front. */
  function TokenSize(s: string): (n: nat)
    ensures n <= |s| && (!Over(s) && !Space(s[0]) ==> n > 0)
    ensures n < |s| ==> Over(s[n..]) || Space(s[n])
  {
    if Over(s) || Space(s[0]) then
      0
    else
      var n := TokenSize(s[1..]);
      assert n < |s| - 1 ==> s[1..][n..] == s[n + 1..];
      n + 1
  }

  /** The tokens of a line, when there is room for them. */
  function Tokens(s: string, room: nat): Option<Line>
    decreases |s|
  {
    var t := SkipSpaces(s);
    if Over(t) then
      Some([])
    else if room == 0 then
      None
    else
      var n := if Space(t[0]) then 0 else TokenSize(t);
      if n == 0 || Over(t[n..]) then
        Some([t[..n]])
      else
        match Tokens(t[n + 1..], room - 1)
        case None => None
        case Some(others) => Some([t[..n]] + others)
  }

  datatype Reading = End | BadLine | Found(line: Line, rest: string)

  /** The next line that has tokens. */
  function Next(text: string): Reading
    decreases |text|
  {
    if text == "" then
      End
    else
      var (line, rest) := RawLine(text);
      if |line| > MAX_LINE then
        BadLine
      else
        match Tokens(Strip(line), MAX_TOKENS)
        case None => BadLine
        case Some(tokens) => if tokens == [] then Next(rest) else Found(tokens, rest)
  }

  lemma {:induction false} NextAdvances(text: string)
    ensures Next(text).Found? ==> |Next(text).rest| < |text|
    decreases |text|
  {
    if text != "" {
      NextAdvances(RawLine(text).1);
    }
  }

  /** All lines of a file; a bad one anywhere rejects it, as every loader reads to
      the end. */
  function Lines(text: string): Option<seq<Line>>
    decreases |text|
  {
    NextAdvances(text);
    match Next(text)
    case End => Some([])
    case BadLine => None
    case Found(line, rest) =>
      match Lines(rest)
      case None => None
      case Some(more) => Some([line] + more)
  }

  // ---------- the reader ----------

  ghost function InFront(front: Line, tokens: Option<Line>): Option<Line> {
    if tokens.None? then None else Some(front + tokens.value)
  }

  lemma NothingInFront(tokens: Option<Line>)
    ensures InFront([], tokens) == tokens
  {
    if tokens.Some? {
      assert [] + tokens.value == tokens.value;
    }
  }

  /** One turn of the token loop. */
  lemma NextToken(found: Line, u: string, t: string, n: nat, room: nat)
    requires t == SkipSpaces(u) && !Over(t) && !Space(t[0]) && n == TokenSize(t) && n < |t| && !Over(t[n..]) && room > 0
    ensures InFront(found, Tokens(u, room)) == InFront(found + [t[..n]], Tokens(t[n + 1..], room - 1))
  {
    var others := Tokens(t[n + 1..], room - 1);
    if others.Some? {
      assert found + ([t[..n]] + others.value) == (found + [t[..n]]) + others.value;
    }
    hide SkipSpaces, TokenSize;
  }

  method SkipBlanks(s: string, from: nat) returns (cursor: nat)
    requires from <= |s|
    ensures from <= cursor <= |s| && SkipSpaces(s[from..]) == s[cursor..]
    ensures cursor < |s| ==> !Space(s[cursor])
  {
    cursor := from;
    while cursor < |s| && Space(s[cursor])
      invariant from <= cursor <= |s|
      invariant SkipSpaces(s[cursor..]) == SkipSpaces(s[from..])
    {
      assert s[cursor..][1..] == s[cursor + 1..];
      cursor := cursor + 1;
    }
  }

  method TokenEnd(s: string, from: nat) returns (cursor: nat)
    requires from <= |s|
    ensures from <= cursor <= |s| && TokenSize(s[from..]) == cursor - from
    ensures cursor < |s| ==> s[cursor] == '\0' || s[cursor] == '#' || Space(s[cursor])
  {
    hide SkipSpaces, TokenSize;
    cursor := from;
    while cursor < |s| && s[cursor] != '\0' && s[cursor] != '#' && !Space(s[cursor])
      invariant from <= cursor <= |s|
      invariant TokenSize(s[from..]) == cursor - from + TokenSize(s[cursor..])
    {
      OneMoreChar(s[cursor..]);
      assert s[cursor..][1..] == s[cursor + 1..];
      cursor := cursor + 1;
    }
    NoChar(s[cursor..]);
  }

  lemma OneMoreChar(s: string)
    requires !Over(s) && !Space(s[0])
    ensures TokenSize(s) == 1 + TokenSize(s[1..])
  {
  }

  lemma NoChar(s: string)
    requires Over(s) || Space(s[0])
    ensures TokenSize(s) == 0
  {
  }

  /** The token loop over one stripped line. */
  method SplitLine(s: string) returns (tokens: Option<Line>)
    ensures tokens == Tokens(s, MAX_TOKENS)
  {
    hide SkipSpaces, TokenSize;
    var cursor, found: Line := 0, [];
    assert s[cursor..] == s;
    NothingInFront(Tokens(s, MAX_TOKENS));
    while true
      invariant cursor <= |s| && |found| <= MAX_TOKENS
      invariant InFront(found, Tokens(s[cursor..], MAX_TOKENS - |found|)) == Tokens(s, MAX_TOKENS)
      decreases |s| - cursor
    {
      var start := SkipBlanks(s, cursor);
      if start == |s| || s[start] == '\0' || s[start] == '#' {
        assert found + [] == found;
        return Some(found);
      }
      if |found| == MAX_TOKENS {
        return None;
      }
      var end := TokenEnd(s, start);
      ghost var t := s[start..];
      assert t[..end - start] == s[start..end] && t[end - start..] == s[end..];
      if end == |s| || s[end] == '\0' || s[end] == '#' {
        return Some(found + [s[start..end]]);
      }
      assert t[end - start + 1..] == s[end + 1..];
      NextToken(found, s[cursor..], t, end - start, MAX_TOKENS - |found|);
      found, cursor := found + [s[start..end]], end + 1;
    }
  }

  method StripLine(raw: string) returns (line: string)
    ensures line == Strip(raw)
  {
    var length: nat := |raw|;
    assert raw[..length] == raw;
    while length > 0 && (raw[length - 1] == '\n' || raw[length - 1] == '\r')
      invariant length <= |raw| && Strip(raw[..length]) == Strip(raw)
    {
      assert raw[..length][..length - 1] == raw[..length - 1];
      length := length - 1;
    }
    line := raw[..length];
  }

  ghost function Glue(front: string, r: (string, string)): (string, string) {
    (front + r.0, r.1)
  }

  lemma GlueGlue(a: string, b: string, r: (string, string))
    ensures Glue(a, Glue(b, r)) == Glue(a + b, r)
  {
    assert a + (b + r.0) == (a + b) + r.0;
  }

  lemma RawStep(u: string)
    requires u != ""
    ensures RawLine(u)
         == if |u| == 1 || u[0] == '\n' then ([u[0]], u[1..]) else Glue([u[0]], RawLine(u[1..]))
  {
  }

  /** A file that is read line by line, comments and blank lines skipped. */
  class LineReader {
    const text: string
    var position: nat

    ghost predicate Valid()
      reads this
    {
      position <= |text|
    }

    ghost function Rest(): string
      reads this
      requires Valid()
    {
      text[position..]
    }

    constructor (text: string)
      ensures this.text == text && Valid() && Rest() == text
    {
      this.text := text;
      position := 0;
    }

    method GetLine() returns (line: string)
      requires Valid() && position < |text|
      modifies this
      ensures Valid() && position > old(position) && (line, Rest()) == RawLine(old(Rest()))
    {
      hide RawLine;
      var start: nat, end: nat := position, position;
      assert text[start..start] + RawLine(text[start..]).0 == RawLine(text[start..]).0;
      while end + 1 < |text| && text[end] != '\n'
        invariant start <= end < |text|
        invariant RawLine(text[start..]) == Glue(text[start..end], RawLine(text[end..]))
      {
        RawStep(text[end..]);
        assert text[end..][1..] == text[end + 1..];
        assert text[start..end] + [text[end]] == text[start..end + 1];
        GlueGlue(text[start..end], [text[end]], RawLine(text[end + 1..]));
        end := end + 1;
      }
      RawStep(text[end..]);
      assert text[end..][1..] == text[end + 1..];
      assert text[start..end] + [text[end]] == text[start..end + 1];
      line := text[start..end + 1];
      position := end + 1;
    }

    method NextLine() returns (found: Option<Line>, ok: bool)
      requires Valid()
      modifies this
      ensures Valid()
      ensures match Next(old(Rest()))
              case End => ok && found == None
              case BadLine => !ok
              case Found(tokens, rest) => ok && found == Some(tokens) && Rest() == rest
    {
      hide Tokens, Strip, RawLine;
      while position < |text|
        invariant Valid() && Next(Rest()) == Next(old(Rest()))
        decreases |text| - position
      {
        var raw := GetLine();
        if |raw| > MAX_LINE {
          return None, false;
        }
        var line := StripLine(raw);
        var tokens := SplitLine(line);
        if tokens.None? {
          return None, false;
        }
        if tokens.value != [] {
          return tokens, true;
        }
      }
      return None, true;
    }
  }

  // ---------- written lines ----------

  /** A token that the reader takes whole. */
  predicate Clean(token: string) {
    0 < |token| <= 16000 && forall i :: 0 <= i < |token| ==> !Space(token[i]) && token[i] != '#' && token[i] != '\0'
  }

  predicate CleanLine(line: Line) {
    0 < |line| <= MAX_TOKENS && forall i :: 0 <= i < |line| ==> Clean(line[i])
  }

  ghost predicate AllClean(lines: seq<Line>) {
    forall i :: 0 <= i < |lines| ==> CleanLine(lines[i])
  }

  function Join(line: Line): string
    requires line != []
  {
    if |line| == 1 then line[0] else line[0] + " " + Join(line[1..])
  }

  function Text(lines: seq<Line>): string
    requires forall i :: 0 <= i < |lines| ==> lines[i] != []
  {
    if lines == [] then "" else Join(lines[0]) + "\n" + Text(lines[1..])
  }

  lemma {:induction false} CleanTokenSize(token: string, tail: string)
    requires (forall i :: 0 <= i < |token| ==> !Space(token[i]) && token[i] != '#' && token[i] != '\0')
    requires Over(tail) || Space(tail[0])
    ensures TokenSize(token + tail) == |token|
  {
    if token == "" {
      assert token + tail == tail;
    } else {
      assert (token + tail)[1..] == token[1..] + tail;
      CleanTokenSize(token[1..], tail);
    }
  }

  /** One token in front of the end of a line or of a blank. */
  lemma FirstToken(token: string, tail: string, room: nat)
    requires Clean(token) && room > 0
    requires tail == "" || tail[0] == ' '
    ensures Tokens(token + tail, room)
         == if tail == "" then Some([token])
            else match Tokens(tail[1..], room - 1)
                 case None => None
                 case Some(others) => Some([token] + others)
  {
    var s := token + tail;
    CleanTokenSize(token, tail);
    assert s[0] == token[0] && SkipSpaces(s) == s;
    assert s[..|token|] == token && s[|token|..] == tail;
    if tail != "" {
      assert s[|token| + 1..] == tail[1..];
    }
    hide TokenSize, SkipSpaces;
  }

  lemma {:induction false} JoinedTokens(line: Line, room: nat)
    requires 0 < |line| <= room && forall i :: 0 <= i < |line| ==> Clean(line[i])
    ensures Tokens(Join(line), room) == Some(line)
    decreases |line|
  {
    hide Tokens, Clean;
    if |line| == 1 {
      FirstToken(line[0], "", room);
      assert line[0] + "" == line[0] && line == [line[0]];
    } else {
      var tail := " " + Join(line[1..]);
      assert Join(line) == line[0] + tail;
      FirstToken(line[0], tail, room);
      assert tail[1..] == Join(line[1..]);
      JoinedTokens(line[1..], room - 1);
      assert line == [line[0]] + line[1..];
    }
  }

  lemma {:induction false} JoinedLine(line: Line)
    requires line != [] && forall i :: 0 <= i < |line| ==> Clean(line[i])
    ensures |Join(line)| <= 16001 * |line| && Join(line) != ""
    ensures forall i :: 0 <= i < |Join(line)| ==> Join(line)[i] != '\n' && Join(line)[i] != '\r'
    decreases |line|
  {
    if |line| > 1 {
      JoinedLine(line[1..]);
      assert forall i :: 0 <= i < |line[0]| ==> !Space(line[0][i]);
    }
  }

  lemma {:induction false} RawJoined(s: string, rest: string)
    requires forall i :: 0 <= i < |s| ==> s[i] != '\n'
    ensures RawLine(s + "\n" + rest) == (s + "\n", rest)
    decreases |s|
  {
    var text := s + "\n" + rest;
    if s == "" {
      assert text[1..] == rest;
    } else {
      assert text[1..] == s[1..] + "\n" + rest;
      RawJoined(s[1..], rest);
      assert [text[0]] + (s[1..] + "\n") == s + "\n";
    }
  }

  /** The reader finds the lines of a written text. */
  lemma {:induction false} TextRoundTrip(lines: seq<Line>)
    requires AllClean(lines)
    ensures Lines(Text(lines)) == Some(lines)
  {
    if lines != [] {
      NextWritten(lines[0], Text(lines[1..]));
      TextRoundTrip(lines[1..]);
      hide Next, Join, CleanLine;
      assert lines == [lines[0]] + lines[1..];
    }
  }

  lemma NextWritten(line: Line, rest: string)
    requires CleanLine(line)
    ensures Next(Join(line) + "\n" + rest) == Found(line, rest)
  {
    JoinedLine(line);
    RawJoined(Join(line), rest);
    JoinedTokens(line, MAX_TOKENS);
    StripJoined(Join(line));
    hide Tokens, Strip, RawLine, Join, Clean;
  }

  lemma StripJoined(s: string)
    requires s != "" && s[|s| - 1] != '\n' && s[|s| - 1] != '\r'
    ensures Strip(s + "\n") == s
  {
    assert (s + "\n")[..|s|] == s;
  }

  // ---------- the savers write clean lines ----------

  ghost predicate CleanNumerals<R(!new)>(num: Numerals<R>) {
    forall r :: Clean(num.print_(r))
  }

  function Tens(k: nat): (t: nat)
    ensures t > 0
  {
    if k == 0 then 1 else 10 * Tens(k - 1)
  }

  lemma {:induction false} DecimalIsClean(n: nat, k: nat)
    requires n < Tens(k) && 0 < k <= 16000
    ensures Clean(Decimal(n)) && |Decimal(n)| <= k
  {
    if n >= 10 {
      DecimalIsClean(n / 10, k - 1);
    }
  }

  lemma {:induction false} TensMultiply(j: nat, k: nat)
    ensures Tens(j + k) == Tens(j) * Tens(k)
  {
    if j > 0 {
      TensMultiply(j - 1, k);
    }
  }

  lemma SizeIsClean(value: Word)
    ensures Clean(Decimal(value))
  {
    assert Tens(1) == 10 && Tens(2) == 100 && Tens(3) == 1000 && Tens(4) == 10000 && Tens(5) == 100000;
    TensMultiply(5, 5);
    TensMultiply(10, 10);
    assert Tens(20) == 10000000000 * 10000000000;
    hide Tens, Clean;
    DecimalIsClean(value, 20);
  }

  lemma InFrontOf(line: Line, tail: seq<Line>)
    requires CleanLine(line) && AllClean(tail)
    ensures AllClean([line] + tail)
  {
  }

  lemma CleanSize(name: string, value: Word, tail: seq<Line>)
    requires Clean(name) && AllClean(tail)
    ensures AllClean(WriteSize(name, value, tail))
  {
    SizeIsClean(value);
    InFrontOf([name, Decimal(value)], tail);
  }

  lemma CleanReal<R(!new)>(num: Numerals<R>, name: string, value: R, tail: seq<Line>)
    requires Clean(name) && CleanNumerals(num) && AllClean(tail)
    ensures AllClean(WriteReal(num, name, value, tail))
  {
    InFrontOf([name, num.print_(value)], tail);
  }

  lemma CleanOptional<R(!new)>(num: Numerals<R>, name: string, value: Option<R>, tail: seq<Line>)
    requires Clean(name) && CleanNumerals(num) && AllClean(tail)
    ensures AllClean(WriteOptional(num, name, value, tail))
  {
    if value.Some? {
      CleanReal(num, name, value.value, tail);
    }
  }

  lemma CleanFlag(name: string, flag: bool, tail: seq<Line>)
    requires Clean(name) && AllClean(tail)
    ensures AllClean(WriteFlag(name, flag, tail))
  {
    assert Clean("0") && Clean("1");
    InFrontOf([name, if flag then "1" else "0"], tail);
  }

  lemma CleanDigest(name: string, digest: string, tail: seq<Line>)
    requires Clean(name) && HexDigest(digest) && AllClean(tail)
    ensures AllClean(WriteDigest(name, digest, tail))
  {
    assert forall i :: 0 <= i < |digest| ==> digest[i] in digest;
    assert Clean(PREFIX + digest);
    InFrontOf([name, PREFIX + digest], tail);
  }

  lemma {:induction false} CleanValues<R(!new)>(num: Numerals<R>, values: seq<R>, tail: seq<Line>)
    requires CleanNumerals(num) && AllClean(tail)
    ensures AllClean(WriteValues(num, values, tail))
  {
    if values != [] {
      CleanValues(num, values[1..], tail);
      InFrontOf([num.print_(values[0])], WriteValues(num, values[1..], tail));
    }
  }

  lemma LayerWords()
    ensures Clean("layer") && Clean("weights") && Clean("biases") && Clean("end_layer") && Clean("end")
  {
  }

  lemma CleanLayer<R(!new)>(num: Numerals<R>, layer: Layer<R>, index: Word, tail: seq<Line>)
    requires CleanNumerals(num) && AllClean(tail)
    ensures AllClean(WriteLayer(num, layer, index, tail))
  {
    hide AllClean, Clean;
    LayerWords();
    InFrontOf(["end_layer"], tail);
    var last := [["end_layer"]] + tail;
    CleanValues(num, layer.biases, last);
    var biases := WriteValues(num, layer.biases, last);
    InFrontOf(["biases"], biases);
    CleanValues(num, layer.weights, [["biases"]] + biases);
    var weights := WriteValues(num, layer.weights, [["biases"]] + biases);
    InFrontOf(["weights"], weights);
    CleanSize("layer", index, [["weights"]] + weights);
  }

  lemma {:induction false} CleanLayers<R(!new)>(num: Numerals<R>, layers: seq<Layer<R>>, index: nat, tail: seq<Line>)
    requires CleanNumerals(num) && AllClean(tail) && index + |layers| <= MODULUS
    ensures AllClean(WriteLayers(num, layers, index, tail))
  {
    hide AllClean, Clean;
    LayerWords();
    if layers == [] {
      InFrontOf(["end"], tail);
    } else {
      CleanLayers(num, layers[1..], index + 1, tail);
      CleanLayer(num, layers[0], index, WriteLayers(num, layers[1..], index + 1, tail));
    }
  }

  lemma ScheduleWords()
    ensures Clean("optimizer_timestep") && Clean("learning_rate_schedule") && Clean("schedule_completed_epochs")
    ensures Clean("schedule_current_rate")
  {
  }

  lemma TransitionWords()
    ensures Clean("schedule_next_transition") && Clean("schedule_has_best")
    ensures Clean("schedule_stale_epochs") && Clean("schedule_best_metric")
  {
  }

  lemma ConvergenceWords()
    ensures Clean("convergence_has_best") && Clean("convergence_stale_epochs") && Clean("convergence_reason")
    ensures Clean("convergence_best_loss")
  {
  }

  lemma BufferWords()
    ensures Clean("optimizer_beta1_power") && Clean("optimizer_beta2_power")
    ensures Clean("optimizer_state1") && Clean("optimizer_state2")
  {
  }

  lemma HeaderWords()
    ensures Clean("neural-c") && Clean("weights") && Clean("checkpoint") && Clean("model_digest")
    ensures Clean("dataset_digest") && Clean("training_digest") && Clean("completed_epochs") && Clean("target_epochs")
    ensures Clean("optimizer") && Clean("rng_state") && Clean("model")
  {
  }

  lemma FileWords()
    ensures Clean("best_epoch") && Clean("best_loss") && Clean("stale_epochs") && Clean("current_model")
    ensures Clean("best_model") && Clean("selected_epoch") && Clean("completion")
  {
  }

  lemma NamesAreClean(kind: Schedule.Kind, schedule: Schedule.ScheduleKind, reason: Completion)
    ensures Clean(OptimizerName(kind)) && Clean(ScheduleName(schedule)) && Clean(CompletionName(reason))
  {
    hide Clean;
    OptimizerWords();
    PolicyWords();
    ReasonWords();
  }

  lemma OptimizerWords()
    ensures Clean("gradient_descent") && Clean("momentum") && Clean("adam")
  {
  }

  lemma PolicyWords()
    ensures Clean("constant") && Clean("step") && Clean("exponential") && Clean("plateau")
  {
  }

  lemma ReasonWords()
    ensures Clean("target") && Clean("early_stopping") && Clean("loss_target") && Clean("no_improvement")
  {
  }

  lemma CleanState<R(!new)>(num: Numerals<R>, s: State<R>, tail: seq<Line>)
    requires CleanNumerals(num) && BuffersFit(s.buffers) && AllClean(tail)
    ensures AllClean(WriteState(num, s, tail))
  {
    hide WriteSchedule, WriteConvergence, WriteBuffers, AllClean, Clean;
    CleanBuffers(num, s.buffers, tail);
    CleanConvergence(num, s, WriteBuffers(num, s.buffers, tail));
    CleanSchedule(num, s, WriteConvergence(num, s, WriteBuffers(num, s.buffers, tail)));
  }

  lemma CleanBuffers<R(!new)>(num: Numerals<R>, buffers: Buffers<R>, tail: seq<Line>)
    requires CleanNumerals(num) && BuffersFit(buffers) && AllClean(tail)
    ensures AllClean(WriteBuffers(num, buffers, tail))
  {
    hide AllClean, Clean, WriteLayers, WriteReal;
    BufferWords();
    match buffers {
      case NoBuffers =>
      case MomentumBuffers(v) =>
        CleanLayers(num, v, 0, tail);
        InFrontOf(["optimizer_state1"], WriteLayers(num, v, 0, tail));
      case AdamBuffers(b1, b2, m, v) =>
        CleanLayers(num, v, 0, tail);
        InFrontOf(["optimizer_state2"], WriteLayers(num, v, 0, tail));
        var second := [["optimizer_state2"]] + WriteLayers(num, v, 0, tail);
        CleanLayers(num, m, 0, second);
        InFrontOf(["optimizer_state1"], WriteLayers(num, m, 0, second));
        var first := [["optimizer_state1"]] + WriteLayers(num, m, 0, second);
        CleanReal(num, "optimizer_beta2_power", b2, first);
        CleanReal(num, "optimizer_beta1_power", b1, WriteReal(num, "optimizer_beta2_power", b2, first));
    }
  }

  lemma CleanConvergence<R(!new)>(num: Numerals<R>, s: State<R>, tail: seq<Line>)
    requires CleanNumerals(num) && AllClean(tail)
    ensures AllClean(WriteConvergence(num, s, tail))
  {
    hide AllClean, Clean, WriteFlag, WriteSize, WriteOptional;
    ConvergenceWords();
    CleanOptional(num, "convergence_best_loss", s.convergenceBest, tail);
    var best := WriteOptional(num, "convergence_best_loss", s.convergenceBest, tail);
    CleanSize("convergence_reason", ReasonCode(s.reason), best);
    var reason := WriteSize("convergence_reason", ReasonCode(s.reason), best);
    CleanSize("convergence_stale_epochs", s.convergenceStale, reason);
    CleanFlag("convergence_has_best", s.convergenceBest.Some?,
              WriteSize("convergence_stale_epochs", s.convergenceStale, reason));
  }

  lemma CleanSchedule<R(!new)>(num: Numerals<R>, s: State<R>, tail: seq<Line>)
    requires CleanNumerals(num) && AllClean(tail)
    ensures AllClean(WriteSchedule(num, s, tail))
  {
    hide AllClean, Clean, WriteFlag, WriteSize, WriteOptional, WriteReal;
    ScheduleWords();
    TransitionWords();
    NamesAreClean(Schedule.Adam, s.schedule, TargetEpochs);
    CleanOptional(num, "schedule_best_metric", s.best, tail);
    var best := WriteOptional(num, "schedule_best_metric", s.best, tail);
    CleanSize("schedule_stale_epochs", s.stale, best);
    var stale := WriteSize("schedule_stale_epochs", s.stale, best);
    CleanFlag("schedule_has_best", s.best.Some?, stale);
    var hasBest := WriteFlag("schedule_has_best", s.best.Some?, stale);
    CleanSize("schedule_next_transition", s.nextTransition, hasBest);
    var next := WriteSize("schedule_next_transition", s.nextTransition, hasBest);
    CleanReal(num, "schedule_current_rate", s.rate, next);
    var rate := WriteReal(num, "schedule_current_rate", s.rate, next);
    CleanSize("schedule_completed_epochs", s.completed, rate);
    var completed := WriteSize("schedule_completed_epochs", s.completed, rate);
    InFrontOf(["learning_rate_schedule", ScheduleName(s.schedule)], completed);
    CleanSize("optimizer_timestep", s.timestep, [["learning_rate_schedule", ScheduleName(s.schedule)]] + completed);
  }

  lemma CleanHeader(kind: string, version: Word, d: Digests, completed: Word, tail: seq<Line>)
    requires Clean(kind) && d.Valid() && AllClean(tail)
    ensures AllClean(WriteHeader(kind, version, d, completed, tail))
  {
    hide AllClean, Clean, WriteDigest, WriteSize, HexDigest;
    HeaderWords();
    SizeIsClean(version);
    CleanSize("completed_epochs", completed, tail);
    var size := WriteSize("completed_epochs", completed, tail);
    CleanDigest("training_digest", d.training, size);
    var training := WriteDigest("training_digest", d.training, size);
    CleanDigest("dataset_digest", d.dataset, training);
    var dataset := WriteDigest("dataset_digest", d.dataset, training);
    CleanDigest("model_digest", d.model, dataset);
    InFrontOf(["neural-c", kind, Decimal(version)], WriteDigest("model_digest", d.model, dataset));
  }

  lemma CleanBoundary(b: Boundary, version: Word, tail: seq<Line>)
    requires b.Valid() && AllClean(tail)
    ensures AllClean(WriteBoundary(b, version, tail))
  {
    hide AllClean, Clean, WriteHeader, WriteSize, HexDigest;
    HeaderWords();
    NamesAreClean(b.optimizer, Schedule.Step, TargetEpochs);
    CleanSize("rng_state", b.rng, tail);
    var rng := WriteSize("rng_state", b.rng, tail);
    InFrontOf(["optimizer", OptimizerName(b.optimizer)], rng);
    var name := [["optimizer", OptimizerName(b.optimizer)]] + rng;
    CleanSize("target_epochs", b.target, name);
    CleanHeader("checkpoint", version, b.digests, b.completed, WriteSize("target_epochs", b.target, name));
  }

  // ---------- whole files, character by character ----------

  lemma CleanCheckpoint<R(!new)>(num: Numerals<R>, c: Checkpoint<R>)
    requires CleanNumerals(num) && c.boundary.Valid() && |c.model| <= MODULUS
    requires c.state.Some? ==> BuffersFit(c.state.value.buffers)
    ensures AllClean(WriteCheckpoint(num, c))
  {
    hide AllClean, Clean, WriteBoundary, WriteState, WriteLayers, HexDigest;
    HeaderWords();
    assert AllClean([]) by { NoLines(); }
    CleanLayers(num, c.model, 0, []);
    match c.state {
      case None =>
        CleanBoundary(c.boundary, 1, WriteModelAndEnd(num, c.model));
      case Some(state) =>
        InFrontOf(["model"], WriteModelAndEnd(num, c.model));
        CleanState(num, state, [["model"]] + WriteModelAndEnd(num, c.model));
        CleanBoundary(c.boundary, 3, WriteState(num, state, [["model"]] + WriteModelAndEnd(num, c.model)));
    }
  }

  lemma NoLines()
    ensures AllClean([])
  {
  }

  lemma CleanEarly<R(!new)>(num: Numerals<R>, e: EarlyCheckpoint<R>)
    requires CleanNumerals(num) && e.boundary.Valid() && |e.current| <= MODULUS && |e.best| <= MODULUS
    requires e.state.Some? ==> BuffersFit(e.state.value.buffers)
    ensures AllClean(WriteEarly(num, e))
  {
    hide AllClean, Clean, WriteBoundary, WriteState, WriteLayers, WriteEarlyLines, WriteModels, HexDigest;
    CleanModels(num, e);
    var models := WriteModels(num, e);
    match e.state {
      case None =>
        CleanEarlyLines(num, e, models);
        CleanBoundary(e.boundary, 2, WriteEarlyLines(num, e, models));
      case Some(state) =>
        CleanState(num, state, models);
        CleanEarlyLines(num, e, WriteState(num, state, models));
        CleanBoundary(e.boundary, 3, WriteEarlyLines(num, e, WriteState(num, state, models)));
    }
  }

  lemma CleanModels<R(!new)>(num: Numerals<R>, e: EarlyCheckpoint<R>)
    requires CleanNumerals(num) && |e.current| <= MODULUS && |e.best| <= MODULUS
    ensures AllClean(WriteModels(num, e))
  {
    hide AllClean, Clean, WriteLayers;
    FileWords();
    NoLines();
    CleanLayers(num, e.best, 0, []);
    InFrontOf(["best_model"], WriteModelAndEnd(num, e.best));
    var second := [["best_model"]] + WriteModelAndEnd(num, e.best);
    CleanLayers(num, e.current, 0, second);
    InFrontOf(["current_model"], WriteLayers(num, e.current, 0, second));
  }

  lemma CleanEarlyLines<R(!new)>(num: Numerals<R>, e: EarlyCheckpoint<R>, tail: seq<Line>)
    requires CleanNumerals(num) && AllClean(tail)
    ensures AllClean(WriteEarlyLines(num, e, tail))
  {
    hide AllClean, Clean, WriteSize, WriteReal;
    FileWords();
    CleanSize("stale_epochs", e.stale, tail);
    var stale := WriteSize("stale_epochs", e.stale, tail);
    CleanReal(num, "best_loss", e.bestLoss, stale);
    CleanSize("best_epoch", e.bestEpoch, WriteReal(num, "best_loss", e.bestLoss, stale));
  }

  lemma CleanWeights<R(!new)>(num: Numerals<R>, w: WeightsFile<R>)
    requires CleanNumerals(num) && w.digests.Valid() && |w.model| <= MODULUS
    ensures AllClean(WriteWeights(num, w))
  {
    hide AllClean, Clean, WriteHeader, WriteSize, WriteLayers, HexDigest;
    HeaderWords();
    FileWords();
    NoLines();
    NamesAreClean(Schedule.Adam, Schedule.Step, w.reason);
    CleanLayers(num, w.model, 0, []);
    var model := WriteModelAndEnd(num, w.model);
    if w.version == 1 {
      CleanHeader("weights", w.version, w.digests, w.completed, model);
    } else {
      InFrontOf(["completion", CompletionName(w.reason)], model);
      var name := [["completion", CompletionName(w.reason)]] + model;
      CleanSize("target_epochs", w.target, name);
      CleanSize("selected_epoch", w.selected, WriteSize("target_epochs", w.target, name));
      CleanHeader("weights", w.version, w.digests, w.completed,
                  WriteSize("selected_epoch", w.selected, WriteSize("target_epochs", w.target, name)));
    }
  }

  /** The characters of a checkpoint load as what was saved, exactly when the
      restore functions accept its optimizer state. */
  lemma CheckpointTextRoundTrip<R(!new)>(num: Numerals<R>, c: Checkpoint<R>, rt: Runtime)
    requires CleanNumerals(num) && Exact(num) && c.boundary.Valid() && c.boundary.digests == rt.expected
    requires |c.model| <= MODULUS && ShapeOf(c.model) == rt.shape && StateFits(c.state, c.boundary.optimizer, rt)
    ensures AllClean(WriteCheckpoint(num, c))
    ensures var lines := Lines(Text(WriteCheckpoint(num, c)));
            && lines.Some?
            && LoadCheckpoint(num, lines.value, rt)
               == if c.state.Some? && !Restorable(num, c.state.value) then None else Some(c)
  {
    hide AllClean, WriteCheckpoint, LoadCheckpoint, Restorable;
    CleanCheckpoint(num, c);
    TextRoundTrip(WriteCheckpoint(num, c));
    CheckpointRoundTrip(num, c, rt);
  }

  lemma EarlyTextRoundTrip<R(!new)>(num: Numerals<R>, e: EarlyCheckpoint<R>, rt: Runtime)
    requires CleanNumerals(num) && Exact(num) && e.boundary.Valid() && e.boundary.digests == rt.expected
    requires 0 < e.bestEpoch <= e.boundary.completed && e.stale <= e.boundary.completed
    requires |e.current| <= MODULUS && |e.best| <= MODULUS
    requires ShapeOf(e.current) == rt.shape && ShapeOf(e.best) == rt.shape
    requires StateFits(e.state, e.boundary.optimizer, rt)
    ensures AllClean(WriteEarly(num, e))
    ensures var lines := Lines(Text(WriteEarly(num, e)));
            && lines.Some?
            && LoadEarly(num, lines.value, rt)
               == if e.state.Some? && !Restorable(num, e.state.value) then None else Some(e)
  {
    hide AllClean, WriteEarly, LoadEarly, Restorable;
    CleanEarly(num, e);
    TextRoundTrip(WriteEarly(num, e));
    EarlyRoundTrip(num, e, rt);
  }

  lemma WeightsTextRoundTrip<R(!new)>(num: Numerals<R>, w: WeightsFile<R>, rt: Runtime)
    requires CleanNumerals(num) && Exact(num) && WeightsValid(w) && w.digests == rt.expected
    requires |w.model| <= MODULUS && ShapeOf(w.model) == rt.shape
    ensures AllClean(WriteWeights(num, w))
    ensures var lines := Lines(Text(WriteWeights(num, w)));
            lines.Some? && LoadWeights(num, lines.value, rt) == Some(w)
  {
    hide AllClean, WriteWeights, LoadWeights, HexDigest;
    CleanWeights(num, w);
    TextRoundTrip(WriteWeights(num, w));
    WeightsRoundTrip(num, w, rt);
  }
}
