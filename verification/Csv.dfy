/** The CSV row parser: it unquotes a line in place and returns the starts of its
    fields. The grammar, the encoder and the round trip are on strings. */
module Csv {
  import opened Options

  // ---------- the grammar ----------

  datatype Cut = Cut(field: string, rest: string)

  function Prepend(front: string, cut: Option<Cut>): Option<Cut> {
    match cut
    case None => None
    case Some(c) => Some(Cut(front + c.field, c.rest))
  }

  /** After an opening quote: doubled quotes stand for one, a single one closes. */
  function Quoted(s: string): Option<Cut> {
    if s == "" then
      None
    else if s[0] != '"' then
      Prepend([s[0]], Quoted(s[1..]))
    else if |s| > 1 && s[1] == '"' then
      Prepend("\"", Quoted(s[2..]))
    else
      Some(Cut("", s[1..]))
  }

  /** An unquoted field runs to the next comma and holds no quote. */
  function Plain(s: string): Option<Cut> {
    if s == "" || s[0] == ',' then Some(Cut("", s))
    else if s[0] == '"' then None
    else Prepend([s[0]], Plain(s[1..]))
  }

  function Field(s: string): Option<Cut> {
    if s != "" && s[0] == '"' then
      match Quoted(s[1..])
      case None => None
      case Some(c) => if c.rest == "" || c.rest[0] == ',' then Some(c) else None
    else
      Plain(s)
  }

  lemma {:induction false} QuotedShrinks(s: string)
    ensures Quoted(s).Some? ==> |Quoted(s).value.rest| < |s|
  {
    if s != "" {
      if s[0] != '"' {
        QuotedShrinks(s[1..]);
      } else if |s| > 1 && s[1] == '"' {
        QuotedShrinks(s[2..]);
      }
    }
  }

  lemma {:induction false} PlainShrinks(s: string)
    ensures Plain(s).Some? ==>
              |Plain(s).value.rest| <= |s| && (Plain(s).value.rest == "" || Plain(s).value.rest[0] == ',')
  {
    if s != "" && s[0] != ',' && s[0] != '"' {
      PlainShrinks(s[1..]);
    }
  }

  lemma FieldShrinks(s: string)
    ensures Field(s).Some? ==>
              |Field(s).value.rest| <= |s| && (Field(s).value.rest == "" || Field(s).value.rest[0] == ',')
  {
    if s != "" && s[0] == '"' {
      QuotedShrinks(s[1..]);
    } else {
      PlainShrinks(s);
    }
  }

  /** A row: fields separated by commas; a comma at the very end opens one more,
      empty field. */
  function Row(s: string): Option<seq<string>>
    decreases |s|
  {
    match Field(s)
    case None => None
    case Some(c) =>
      FieldShrinks(s);
      if c.rest == "" then
        Some([c.field])
      else if c.rest[1..] == "" then
        Some([c.field, ""])
      else
        match Row(c.rest[1..])
        case None => None
        case Some(others) => Some([c.field] + others)
  }

  // ---------- the round trip ----------

  /** The field with its quotes doubled, as section 2 of RFC 4180 prescribes, in
      front of what follows. */
  function Escape(field: string, tail: string): string {
    if field == "" then tail
    else if field[0] == '"' then "\"\"" + Escape(field[1..], tail)
    else [field[0]] + Escape(field[1..], tail)
  }

  function Encode(fields: seq<string>): string
    requires fields != []
    decreases fields, 1
  {
    "\"" + Escape(fields[0], "\"" + Others(fields))
  }

  function Others(fields: seq<string>): string
    requires fields != []
    decreases fields, 0
  {
    if |fields| == 1 then "" else "," + Encode(fields[1..])
  }

  lemma {:induction false} QuotedUndoesEscape(field: string, tail: string)
    requires tail == "" || tail[0] != '"'
    ensures Quoted(Escape(field, "\"" + tail)) == Some(Cut(field, tail))
  {
    var s := Escape(field, "\"" + tail);
    if field == "" {
      assert s[1..] == tail;
    } else {
      QuotedUndoesEscape(field[1..], tail);
      var inner := Escape(field[1..], "\"" + tail);
      assert field == [field[0]] + field[1..];
      if field[0] == '"' {
        assert s[2..] == inner;
      } else {
        assert s[1..] == inner;
      }
    }
  }

  /** Parsing the quoted encoding of any non-empty list of fields returns the list. */
  lemma {:induction false} RowUndoesEncode(fields: seq<string>)
    requires fields != []
    ensures Row(Encode(fields)) == Some(fields)
  {
    hide Quoted, Escape;
    var tail := Others(fields);
    QuotedUndoesEscape(fields[0], tail);
    assert Encode(fields)[1..] == Escape(fields[0], "\"" + tail);
    assert Field(Encode(fields)) == Some(Cut(fields[0], tail));
    if |fields| == 1 {
      assert fields == [fields[0]];
    } else {
      assert tail[1..] == Encode(fields[1..]);
      RowUndoesEncode(fields[1..]);
      assert fields == [fields[0]] + fields[1..];
    }
  }

  /** Distinct lists have distinct encodings. */
  lemma EncodeIsInjective(a: seq<string>, b: seq<string>)
    requires a != [] && b != [] && Encode(a) == Encode(b)
    ensures a == b
  {
    RowUndoesEncode(a);
    RowUndoesEncode(b);
  }

  /** Splitting at every comma. */
  function Split(s: string): (fields: seq<string>)
    ensures fields != []
  {
    if s == "" then
      [""]
    else if s[0] == ',' then
      [""] + Split(s[1..])
    else
      var rest := Split(s[1..]);
      [[s[0]] + rest[0]] + rest[1..]
  }

  lemma {:induction false} PlainSplits(s: string)
    requires '"' !in s
    ensures Plain(s).Some?
    ensures var c := Plain(s).value;
            && '"' !in c.rest
            && Split(s) == if c.rest == "" then [c.field] else [c.field] + Split(c.rest[1..])
  {
    PlainShrinks(s);
    if s != "" && s[0] != ',' {
      PlainSplits(s[1..]);
    }
  }

  /** Without quotes a row is its split at the commas: n commas, n + 1 fields. */
  lemma {:induction false} QuoteFreeRowIsSplit(s: string)
    requires '"' !in s
    ensures Row(s) == Some(Split(s))
    decreases |s|
  {
    PlainSplits(s);
    var c := Plain(s).value;
    assert Field(s) == Some(c);
    if c.rest != "" {
      if c.rest[1..] == "" {
        assert Split("") == [""] && [c.field] + [""] == [c.field, ""];
      } else {
        PlainShrinks(s);
        QuoteFreeRowIsSplit(c.rest[1..]);
      }
    }
  }

  // ---------- the parser ----------

  /** The string up to the first terminator. */
  function Text(a: seq<char>): string {
    if a == [] || a[0] == '\0' then "" else [a[0]] + Text(a[1..])
  }

  lemma {:induction false} TextFacts(a: seq<char>)
    requires '\0' in a
    ensures |Text(a)| < |a| && a[..|Text(a)|] == Text(a) && a[|Text(a)|] == '\0' && '\0' !in Text(a)
  {
    if a[0] != '\0' {
      assert '\0' in a[1..] by {
        var k :| 0 <= k < |a| && a[k] == '\0';
        assert a[1..][k - 1] == '\0';
      }
      TextFacts(a[1..]);
      assert a[..|Text(a)|] == [a[0]] + a[1..][..|Text(a[1..])|];
    }
  }

  /** Fields one after the other, each with its terminator. */
  function Packed(fields: seq<string>): string {
    if fields == [] then "" else Packed(fields[..|fields| - 1]) + fields[|fields| - 1] + "\0"
  }

  function Starts(fields: seq<string>): (starts: seq<nat>)
    ensures |starts| == |fields|
  {
    if fields == [] then []
    else Starts(fields[..|fields| - 1]) + [|Packed(fields[..|fields| - 1])|]
  }

  lemma PackedSnoc(fields: seq<string>, field: string)
    ensures Packed(fields + [field]) == Packed(fields) + field + "\0"
    ensures Starts(fields + [field]) == Starts(fields) + [|Packed(fields)|]
  {
    assert (fields + [field])[..|fields|] == fields;
  }

  /** At each returned start, the buffer holds exactly that field as a string. */
  lemma {:induction false} FieldAt(fields: seq<string>, i: nat)
    requires i < |fields| && forall f :: f in fields ==> '\0' !in f
    ensures Starts(fields)[i] <= |Packed(fields)|
    ensures Text(Packed(fields)[Starts(fields)[i]..]) == fields[i]
  {
    var n := |fields| - 1;
    var start := Starts(fields)[i];
    if i == n {
      assert Packed(fields)[start..] == fields[n] + "\0" + "";
      assert fields[n] in fields;
      TextIsPrefix(fields[n], "");
    } else {
      assert forall f :: f in fields[..n] ==> f in fields;
      FieldAt(fields[..n], i);
      Terminated(fields[..n], i);
      LaterFields(fields, i);
      TextStops(Packed(fields[..n])[start..], fields[n] + "\0");
    }
  }

  lemma LaterFields(fields: seq<string>, i: nat)
    requires i < |fields| - 1 && Starts(fields[..|fields| - 1])[i] <= |Packed(fields[..|fields| - 1])|
    ensures var n, start := |fields| - 1, Starts(fields)[i];
            && start == Starts(fields[..n])[i] && start <= |Packed(fields)|
            && Packed(fields)[start..] == Packed(fields[..n])[start..] + (fields[n] + "\0")
  {
  }

  lemma {:induction false} TextIsPrefix(field: string, tail: string)
    requires '\0' !in field
    ensures Text(field + "\0" + tail) == field
  {
    if field == "" {
      assert field + "\0" + tail == "\0" + tail;
    } else {
      assert field[0] in field;
      assert '\0' !in field[1..];
      TextIsPrefix(field[1..], tail);
      assert (field + "\0" + tail)[1..] == field[1..] + "\0" + tail;
      assert field == [field[0]] + field[1..];
    }
  }

  lemma {:induction false} TextStops(a: string, b: string)
    requires '\0' in a
    ensures Text(a + b) == Text(a)
  {
    if a[0] != '\0' {
      assert '\0' in a[1..] by {
        var k :| 0 <= k < |a| && a[k] == '\0';
        assert a[1..][k - 1] == '\0';
      }
      TextStops(a[1..], b);
      assert (a + b)[1..] == a[1..] + b;
    }
  }

  lemma {:induction false} Terminated(fields: seq<string>, i: nat)
    requires i < |fields|
    ensures Starts(fields)[i] <= |Packed(fields)| && '\0' in Packed(fields)[Starts(fields)[i]..]
  {
    var n := |fields| - 1;
    if i < n {
      Terminated(fields[..n], i);
      LaterFields(fields, i);
    } else {
      var tail := Packed(fields)[Starts(fields)[i]..];
      assert tail[|tail| - 1] == '\0';
    }
  }

  /** The part of the line from `read` on is still the original text. */
  ghost predicate Unread(a: seq<char>, text: string, read: nat) {
    |text| < |a| && read <= |text| && a[|text|] == '\0' && '\0' !in text
    && forall i :: read <= i < |text| ==> a[i] == text[i]
  }

  /** What the scanners write: the field so far, behind the text still unread. */
  ghost predicate Written(a: seq<char>, start: nat, write: nat, field: string) {
    start <= write <= |a| && |field| == write - start && forall i :: 0 <= i < |field| ==> a[start + i] == field[i]
  }

  method TakeQuoted(line: array<char>, from: nat, start: nat, ghost text: string)
    returns (closed: bool, read: nat, write: nat, ghost field: string)
    requires start < from && Unread(line[..], text, from)
    modifies line
    ensures write <= read && from <= read && Unread(line[..], text, read) && Written(line[..], start, write, field)
    ensures forall i :: 0 <= i < start ==> line[i] == old(line[i])
    ensures Quoted(text[from..]) == if closed then Some(Cut(field, text[read..])) else None
  {
    hide Quoted, Prepend;
    read, write, closed, field := from, start, false, "";
    PrependNothing(Quoted(text[from..]));
    while line[read] != '\0'
      invariant from <= read && start <= write < read && !closed
      invariant Unread(line[..], text, read) && Written(line[..], start, write, field)
      invariant forall i :: 0 <= i < start ==> line[i] == old(line[i])
      invariant Quoted(text[from..]) == Prepend(field, Quoted(text[read..]))
      decreases |text| - read
    {
      QuotedStep(text, read, field);
      if line[read] == '"' {
        if line[read + 1] == '"' {
          line[write] := '"';
          field := field + "\"";
          write := write + 1;
          read := read + 2;
        } else {
          read := read + 1;
          closed := true;
          return;
        }
      } else {
        line[write] := line[read];
        field := field + [text[read]];
        write := write + 1;
        read := read + 1;
      }
    }
    assert text[read..] == "";
    NothingQuoted(field);
  }

  lemma NothingQuoted(front: string)
    ensures Prepend(front, Quoted("")) == None
  {
  }

  lemma PrependNothing(cut: Option<Cut>)
    ensures Prepend("", cut) == cut
  {
    if cut.Some? {
      assert "" + cut.value.field == cut.value.field;
    }
  }

  /** One step of the quoted scanner on what is left of the text. */
  lemma QuotedStep(text: string, read: nat, front: string)
    requires read < |text|
    ensures var rest := text[read..];
            if rest[0] != '"' then
              Prepend(front, Quoted(rest)) == Prepend(front + [text[read]], Quoted(text[read + 1..]))
            else if read + 1 < |text| && text[read + 1] == '"' then
              Prepend(front, Quoted(rest)) == Prepend(front + "\"", Quoted(text[read + 2..]))
            else
              Prepend(front, Quoted(rest)) == Some(Cut(front, text[read + 1..]))
  {
    var rest := text[read..];
    assert rest[1..] == text[read + 1..];
    if read + 1 < |text| {
      assert rest[2..] == text[read + 2..];
    }
    PrependTwice(front, [text[read]], Quoted(rest[1..]));
    if |rest| > 1 {
      PrependTwice(front, "\"", Quoted(rest[2..]));
    }
    assert front + "" == front;
  }

  lemma PrependTwice(a: string, b: string, cut: Option<Cut>)
    ensures Prepend(a, Prepend(b, cut)) == Prepend(a + b, cut)
  {
    if cut.Some? {
      assert a + (b + cut.value.field) == a + b + cut.value.field;
    }
  }

  method TakePlain(line: array<char>, from: nat, start: nat, ghost text: string)
    returns (ok: bool, read: nat, write: nat, ghost field: string)
    requires start <= from && Unread(line[..], text, from)
    modifies line
    ensures write <= read && from <= read && Unread(line[..], text, read) && Written(line[..], start, write, field)
    ensures forall i :: 0 <= i < start ==> line[i] == old(line[i])
    ensures Plain(text[from..]) == if ok then Some(Cut(field, text[read..])) else None
  {
    read, write, ok, field := from, start, true, "";
    PrependNothing(Plain(text[from..]));
    while line[read] != ',' && line[read] != '\0'
      invariant from <= read && start <= write <= read
      invariant Unread(line[..], text, read) && Written(line[..], start, write, field)
      invariant forall i :: 0 <= i < start ==> line[i] == old(line[i])
      invariant Plain(text[from..]) == Prepend(field, Plain(text[read..]))
      decreases |text| - read
    {
      PlainStep(text, read, field);
      hide Plain, Prepend;
      if line[read] == '"' {
        ok := false;
        return;
      }
      line[write] := line[read];
      field := field + [text[read]];
      write := write + 1;
      read := read + 1;
    }
    assert text[read..] == "" || text[read..][0] == ',';
    assert field + "" == field;
  }

  lemma PlainStep(text: string, read: nat, front: string)
    requires read < |text| && text[read] != ','
    ensures Prepend(front, Plain(text[read..]))
         == if text[read] == '"' then None else Prepend(front + [text[read]], Plain(text[read + 1..]))
  {
    assert text[read..][1..] == text[read + 1..];
    PrependTwice(front, [text[read]], Plain(text[read + 1..]));
  }

  lemma PackedGrows(a: seq<char>, done: seq<string>, write: nat, field: string)
    requires |Packed(done)| <= write < |a| && a[..|Packed(done)|] == Packed(done)
    requires Written(a, |Packed(done)|, write, field) && a[write] == '\0'
    ensures a[..write + 1] == Packed(done + [field]) && |Packed(done + [field])| == write + 1
    ensures Starts(done + [field]) == Starts(done) + [|Packed(done)|]
  {
    PackedSnoc(done, field);
    var start := |Packed(done)|;
    assert a[start..write] == field;
    assert a[..write + 1] == a[..start] + a[start..write] + [a[write]];
  }

  function Onto(done: seq<string>, row: Option<seq<string>>): Option<seq<string>> {
    match row
    case None => None
    case Some(fields) => Some(done + fields)
  }

  /** One turn of the row loop, on what is left of the text. */
  lemma RowStep(done: seq<string>, s: string)
    ensures match Field(s)
            case None => Onto(done, Row(s)) == None
            case Some(c) =>
              (c.rest == "" || c.rest[0] == ',')
              && if c.rest == "" then Onto(done, Row(s)) == Some(done + [c.field])
                 else if c.rest[1..] == "" then Onto(done, Row(s)) == Some(done + [c.field] + [""])
                 else Onto(done, Row(s)) == Onto(done + [c.field], Row(c.rest[1..]))
  {
    FieldShrinks(s);
    if Field(s).Some? {
      var c := Field(s).value;
      assert done + [c.field] + [""] == done + [c.field, ""];
      if c.rest != "" && c.rest[1..] != "" && Row(c.rest[1..]).Some? {
        var others := Row(c.rest[1..]).value;
        assert done + ([c.field] + others) == done + [c.field] + others;
      }
    }
  }

  /** One field, quoted or not. */
  method TakeField(line: array<char>, from: nat, ghost text: string, start: nat)
    returns (ok: bool, read: nat, write: nat, ghost field: string)
    requires start <= from && Unread(line[..], text, from)
    modifies line
    ensures ok ==> write <= read && from <= read && Unread(line[..], text, read)
                   && Written(line[..], start, write, field)
    ensures forall i :: 0 <= i < start ==> line[i] == old(line[i])
    ensures Field(text[from..]) == if ok then Some(Cut(field, text[read..])) else None
  {
    hide Quoted, Plain;
    if line[from] == '"' {
      assert text[from..][1..] == text[from + 1..];
      ok, read, write, field := TakeQuoted(line, from + 1, start, text);
      if ok {
        ok := line[read] == ',' || line[read] == '\0';
      }
    } else {
      ok, read, write, field := TakePlain(line, from, start, text);
    }
  }

  /** The state of the row loop: fields done in front, text still to read behind. */
  ghost predicate Underway(a: seq<char>, text: string, read: nat, write: nat, done: seq<string>) {
    && write <= read && Unread(a, text, read)
    && write == |Packed(done)| && a[..write] == Packed(done)
  }

  /** One field, its separator and its terminator. */
  method TakeCell(line: array<char>, from: nat, start: nat, ghost text: string, ghost done: seq<string>)
    returns (ok: bool, more: bool, read: nat, write: nat, ghost field: string)
    requires Underway(line[..], text, from, start, done)
    modifies line
    ensures match Field(text[from..])
            case None => !ok
            case Some(c) =>
              && ok && field == c.field && more == (c.rest != "") && from <= read
              && (more ==> read > from && Underway(line[..], text, read, write, done + [field])
                           && c.rest[1..] == text[read..])
              && write <= line.Length && write == |Packed(done + [field])|
              && line[..write] == Packed(done + [field])
  {
    hide Field, Packed, Text;
    FieldShrinks(text[from..]);
    ok, read, write, field := TakeField(line, from, text, start);
    more := false;
    if !ok {
      return;
    }
    assert line[..start] == Packed(done);
    assert line[..][..start] == line[..start];
    more := line[read] == ',';
    assert more <==> text[read..] != "";
    if more {
      read := read + 1;
      assert text[read - 1..][1..] == text[read..];
    }
    line[write] := '\0';
    assert line[..][..start] == line[..start] == Packed(done);
    PackedGrows(line[..], done, write, field);
    write := write + 1;
    assert line[..][..write] == line[..write];
  }

  /** The empty field behind a comma at the very end. */
  method TakeEmptyCell(line: array<char>, write: nat, ghost done: seq<string>)
    requires write < line.Length && write == |Packed(done)| && line[..write] == Packed(done)
    modifies line
    ensures |Packed(done + [""])| == write + 1 && line[..write + 1] == Packed(done + [""])
  {
    line[write] := '\0';
    PackedSnoc(done, "");
    assert line[..write + 1] == line[..write] + "\0";
    assert Packed(done) + "" + "\0" == Packed(done) + "\0";
  }

  /** Splits a line in place: every field starts where it is reported, terminated,
      and the whole buffer is used from the front. */
  method ParseLine(line: array<char>) returns (ok: bool, fields: seq<nat>)
    requires '\0' in line[..]
    modifies line
    ensures match Row(Text(old(line[..])))
            case None => !ok
            case Some(row) =>
              && ok && fields == Starts(row)
              && |Packed(row)| <= line.Length && line[..|Packed(row)|] == Packed(row)
  {
    TextFacts(line[..]);
    ghost var text := Text(line[..]);
    ghost var done: seq<string> := [];
    assert Packed(done) == "" && Starts(done) == [];
    hide Field, Row, Packed, Starts, Text;
    var read: nat, write: nat := 0, 0;
    fields := [];
    assert text[0..] == text;
    OntoNothing(Row(text));
    while true
      invariant Underway(line[..], text, read, write, done) && fields == Starts(done)
      invariant Row(text) == Onto(done, Row(text[read..]))
      decreases |text| - read
    {
      RowStep(done, text[read..]);
      var start, more := write, false;
      ghost var field;
      ok, more, read, write, field := TakeCell(line, read, start, text, done);
      if !ok {
        return;
      }
      PackedSnoc(done, field);
      done := done + [field];
      fields := fields + [start];
      if !more {
        return;
      }
      if line[read] == '\0' {
        assert text[read..] == "";
        TakeEmptyCell(line, write, done);
        PackedSnoc(done, "");
        fields := fields + [write];
        return;
      }
    }
  }

  lemma OntoNothing(row: Option<seq<string>>)
    ensures Onto([], row) == row
  {
    if row.Some? {
      assert [] + row.value == row.value;
    }
  }

  lemma {:induction false} EscapeHasNoTerminator(field: string, tail: string)
    requires '\0' !in field && '\0' !in tail
    ensures '\0' !in Escape(field, tail)
  {
    if field != "" {
      assert field[0] in field;
      EscapeHasNoTerminator(field[1..], tail);
    }
  }

  lemma {:induction false} EncodeHasNoTerminator(fields: seq<string>)
    requires fields != [] && forall f :: f in fields ==> '\0' !in f
    ensures '\0' !in Encode(fields)
  {
    assert fields[0] in fields;
    if |fields| > 1 {
      assert forall f :: f in fields[1..] ==> f in fields;
      EncodeHasNoTerminator(fields[1..]);
    }
    EscapeHasNoTerminator(fields[0], "\"" + Others(fields));
  }

  lemma FieldInBuffer(a: seq<char>, fields: seq<string>, i: nat)
    requires i < |fields| && forall f :: f in fields ==> '\0' !in f
    requires |Packed(fields)| <= |a| && a[..|Packed(fields)|] == Packed(fields)
    ensures Starts(fields)[i] <= |a| && Text(a[Starts(fields)[i]..]) == fields[i]
  {
    FieldAt(fields, i);
    Terminated(fields, i);
    var packed, start := Packed(fields), Starts(fields)[i];
    hide Packed, Starts, Text;
    assert a[start..] == packed[start..] + a[|packed|..];
    TextStops(packed[start..], a[|packed|..]);
  }

  lemma EncodedText(a: seq<char>, fields: seq<string>)
    requires fields != [] && forall f :: f in fields ==> '\0' !in f
    requires |Encode(fields)| < |a| && a[..|Encode(fields)| + 1] == Encode(fields) + "\0"
    ensures '\0' in a && Text(a) == Encode(fields)
  {
    EncodeHasNoTerminator(fields);
    var code := Encode(fields);
    hide Encode, Text;
    assert a == code + "\0" + a[|code| + 1..];
    TextIsPrefix(code, a[|code| + 1..]);
    assert a[|code|] == a[..|code| + 1][|code|] == '\0';
  }

  /** A line that holds an encoded row is parsed in place back into its fields:
      every field is the string at its reported start. */
  method ParseEncoded(line: array<char>, ghost fields: seq<string>) returns (starts: seq<nat>)
    requires fields != [] && forall f :: f in fields ==> '\0' !in f
    requires |Encode(fields)| < line.Length && line[..|Encode(fields)| + 1] == Encode(fields) + "\0"
    modifies line
    ensures |starts| == |fields|
    ensures forall i :: 0 <= i < |fields| ==> starts[i] <= line.Length && Text(line[starts[i]..]) == fields[i]
  {
    assert line[..][..|Encode(fields)| + 1] == line[..|Encode(fields)| + 1];
    EncodedText(line[..], fields);
    RowUndoesEncode(fields);
    hide Row, Encode, Text, Packed, Starts;
    var ok;
    ok, starts := ParseLine(line);
    assert line[..][..|Packed(fields)|] == line[..|Packed(fields)|];
    forall i | 0 <= i < |fields|
      ensures starts[i] <= line.Length && Text(line[starts[i]..]) == fields[i]
    {
      FieldInBuffer(line[..], fields, i);
      assert line[..][starts[i]..] == line[starts[i]..];
    }
  }
}
