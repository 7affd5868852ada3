/** Canonical byte streams: 64-bit numbers, counted texts, and optional sections
    that are told apart by a leading text. */
module Encoding {
  import opened Options
  import opened Words
  import opened Sha256

  function Ascii(s: string): (bytes: seq<Byte>)
    ensures |bytes| == |s|
  {
    seq(|s|, i requires 0 <= i < |s| => s[i] as int % 256)
  }

  function Number(value: Word): (bytes: seq<Byte>)
    ensures |bytes| == 8
  {
    BigEndian(value, 8)
  }

  type Text = s: seq<Byte> | |s| < MODULUS witness []

  function Counted(text: Text): (bytes: seq<Byte>)
    ensures |bytes| == 8 + |text|
  {
    Number(|text|) + text
  }

  function Numbers(values: seq<Word>): (bytes: seq<Byte>)
    ensures |bytes| == 8 * |values|
  {
    if values == [] then [] else Numbers(values[..|values| - 1]) + Number(values[|values| - 1])
  }

  // ---------- self-delimiting pieces ----------

  lemma NumberIsDelimited(a: Word, b: Word, x: seq<Byte>, y: seq<Byte>)
    requires Number(a) + x == Number(b) + y
    ensures a == b && x == y
  {
    hide BigEndian;
    SplitEqual(Number(a), Number(b), x, y);
    BigEndianRoundTrip(a);
    BigEndianRoundTrip(b);
  }

  lemma SplitEqual(a: seq<Byte>, b: seq<Byte>, x: seq<Byte>, y: seq<Byte>)
    requires |a| == |b| && a + x == b + y
    ensures a == b && x == y
  {
    assert a == (a + x)[..|a|] && b == (b + y)[..|a|];
    assert x == (a + x)[|a|..] && y == (b + y)[|a|..];
  }

  lemma CountedIsDelimited(a: Text, b: Text, x: seq<Byte>, y: seq<Byte>)
    requires Counted(a) + x == Counted(b) + y
    ensures a == b && x == y
  {
    assert Counted(a) + x == Number(|a|) + (a + x);
    assert Counted(b) + y == Number(|b|) + (b + y);
    hide Number;
    NumberIsDelimited(|a|, |b|, a + x, b + y);
    SplitEqual(a, b, x, y);
  }

  lemma {:induction false} NumbersDetermine(a: seq<Word>, b: seq<Word>)
    requires |a| == |b| && Numbers(a) == Numbers(b)
    ensures a == b
  {
    hide Number;
    if a != [] {
      var n := |a| - 1;
      SplitEqual(Numbers(a[..n]), Numbers(b[..n]), Number(a[n]), Number(b[n]));
      NumbersDetermine(a[..n], b[..n]);
      assert Number(a[n]) + [] == Number(b[n]) + [];
      NumberIsDelimited(a[n], b[n], [], []);
      assert a == a[..n] + [a[n]] && b == b[..n] + [b[n]];
    }
  }

  // ---------- optional sections ----------

  datatype Section = Section(tag: Text, payload: Option<seq<Byte>>)

  function Sections(sections: seq<Section>): seq<Byte> {
    if sections == [] then
      []
    else if sections[0].payload.None? then
      Sections(sections[1..])
    else
      Counted(sections[0].tag) + sections[0].payload.value + Sections(sections[1..])
  }

  /** Payloads that cannot be mistaken for each other whatever follows them. */
  ghost predicate Delimited(a: seq<Byte>, b: seq<Byte>) {
    forall x: seq<Byte>, y: seq<Byte> {:trigger a + x, b + y} :: a + x == b + y ==> a == b
  }

  lemma SameSizeIsDelimited(a: seq<Byte>, b: seq<Byte>)
    requires |a| == |b|
    ensures Delimited(a, b)
  {
    forall x: seq<Byte>, y: seq<Byte> | a + x == b + y ensures a == b {
      SplitEqual(a, b, x, y);
    }
  }

  /** Pieces that start with a text are delimited if its choice fixes their size. */
  lemma NamedIsDelimited(a: Text, b: Text, restA: seq<Byte>, restB: seq<Byte>)
    requires a == b ==> |restA| == |restB|
    ensures Delimited(Counted(a) + restA, Counted(b) + restB)
  {
    hide Counted;
    forall x: seq<Byte>, y: seq<Byte> | (Counted(a) + restA) + x == (Counted(b) + restB) + y
      ensures Counted(a) + restA == Counted(b) + restB
    {
      assert (Counted(a) + restA) + x == Counted(a) + (restA + x);
      assert (Counted(b) + restB) + y == Counted(b) + (restB + y);
      CountedIsDelimited(a, b, restA + x, restB + y);
      SplitEqual(restA, restB, x, y);
    }
  }

  ghost predicate SameTags(a: seq<Section>, b: seq<Section>) {
    && |a| == |b|
    && (forall i :: 0 <= i < |a| ==> a[i].tag == b[i].tag)
    && (forall i, j :: 0 <= i < j < |a| ==> a[i].tag != a[j].tag)
    && (forall i :: 0 <= i < |a| && a[i].payload.Some? && b[i].payload.Some? ==>
          Delimited(a[i].payload.value, b[i].payload.value))
  }

  /** What the present sections start with is one of their tags. */
  lemma {:induction false} FirstTag(sections: seq<Section>) returns (i: nat, rest: seq<Byte>)
    requires Sections(sections) != []
    ensures i < |sections| && Sections(sections) == Counted(sections[i].tag) + rest
  {
    hide Counted;
    if sections[0].payload.None? {
      i, rest := FirstTag(sections[1..]);
      i := i + 1;
    } else {
      i, rest := 0, sections[0].payload.value + Sections(sections[1..]);
      assert Sections(sections) == Counted(sections[0].tag) + rest;
    }
  }

  lemma AbsentSection(tag: Text, payload: seq<Byte>, rest: seq<Byte>, others: seq<Section>)
    requires forall i :: 0 <= i < |others| ==> others[i].tag != tag
    ensures Counted(tag) + payload + rest != Sections(others)
  {
    hide Counted, Sections;
    var stream := Counted(tag) + payload + rest;
    if stream == Sections(others) {
      assert |Counted(tag)| >= 8;
      var i, tail := FirstTag(others);
      assert stream == Counted(tag) + (payload + rest);
      CountedIsDelimited(tag, others[i].tag, payload + rest, tail);
    }
  }

  /** Optional sections with distinct tags can be told apart in the joined stream. */
  lemma {:induction false} SectionsDetermine(a: seq<Section>, b: seq<Section>)
    requires SameTags(a, b) && Sections(a) == Sections(b)
    ensures a == b
  {
    if a != [] {
      var s, t := a[0], b[0];
      hide Counted, Delimited;
      match (s.payload, t.payload) {
        case (None, None) =>
        case (Some(p), None) =>
          AbsentSection(s.tag, p, Sections(a[1..]), b[1..]);
        case (None, Some(q)) =>
          AbsentSection(t.tag, q, Sections(b[1..]), a[1..]);
        case (Some(p), Some(q)) =>
          BothPresent(s.tag, p, q, Sections(a[1..]), Sections(b[1..]));
      }
      SectionsDetermine(a[1..], b[1..]);
      assert a == [s] + a[1..] && b == [t] + b[1..];
    }
  }

  lemma BothPresent(tag: Text, p: seq<Byte>, q: seq<Byte>, x: seq<Byte>, y: seq<Byte>)
    requires Delimited(p, q) && Counted(tag) + p + x == Counted(tag) + q + y
    ensures p == q && x == y
  {
    hide Counted;
    assert Counted(tag) + p + x == Counted(tag) + (p + x);
    assert Counted(tag) + q + y == Counted(tag) + (q + y);
    CountedIsDelimited(tag, tag, p + x, q + y);
    SplitEqual(p, q, x, y);
  }

  // ---------- hexadecimal text ----------

  const HEXADECIMAL: string := "0123456789abcdef"

  function Hex(digest: seq<Byte>): (text: string)
    ensures |text| == 2 * |digest|
  {
    if digest == [] then
      ""
    else
      Hex(digest[..|digest| - 1])
      + [HEXADECIMAL[digest[|digest| - 1] / 16], HEXADECIMAL[digest[|digest| - 1] % 16]]
  }

  /** Distinct digests have distinct texts. */
  lemma {:induction false} HexIsInjective(a: seq<Byte>, b: seq<Byte>)
    requires Hex(a) == Hex(b)
    ensures a == b
  {
    if a != [] {
      var n := |a| - 1;
      assert |Hex(a)| == |Hex(b)|;
      assert Hex(a)[2 * n] == Hex(b)[2 * n] && Hex(a)[2 * n + 1] == Hex(b)[2 * n + 1];
      assert Hex(a)[..2 * n] == Hex(a[..n]) && Hex(b)[..2 * n] == Hex(b[..n]);
      HexIsInjective(a[..n], b[..n]);
      SameDigits(a[n], b[n]);
      assert a == a[..n] + [a[n]] && b == b[..n] + [b[n]];
    }
  }

  lemma SameDigits(a: Byte, b: Byte)
    requires HEXADECIMAL[a / 16] == HEXADECIMAL[b / 16] && HEXADECIMAL[a % 16] == HEXADECIMAL[b % 16]
    ensures a == b
  {
    DistinctDigits(a / 16, b / 16);
    DistinctDigits(a % 16, b % 16);
  }

  lemma DistinctDigits(i: nat, j: nat)
    requires i < 16 && j < 16 && HEXADECIMAL[i] == HEXADECIMAL[j]
    ensures i == j
  {
  }
}
